/**
 When an entry that a handler error or a lost acknowledgement left behind is replayed without harm.

 In a full recovery page the entry is read again before anything behind the page. Its replay undoes what the rest of
 the page did to its server, and nothing else; so it does harm exactly when nothing that comes behind the page is
 about that server and the page itself ended differently.
 */
module LateReplay {
  import opened Collections
  import opened ServerEvents
  import opened Replica
  import opened Recovery
  import opened Consumer
  import opened Overtaking

  /** A server's name and address, or nothing if there is no such server. */
  type Shape = Option<(string, string)>

  /** What an event leaves of its server. */
  function View(e: Event): Shape {
    if e.ServerDeleted? then None else Some((e.row.name, e.row.ipv4))
  }

  /** What the replica shows of server `k`. */
  function Shown(r: ReplicaTable, k: ServerId): Shape {
    if k in r then Some((r[k].name, r[k].ipv4)) else None
  }

  /** What a sequence of events leaves of server `k`. */
  function History(es: seq<Event>, k: ServerId): Shape {
    if LastOf(es, k).Some? then View(LastOf(es, k).value) else None
  }

  /** The replica shows what the events leave of every server but `k`. */
  ghost predicate OthersShown(r: ReplicaTable, es: seq<Event>, k: ServerId) {
    forall j :: j != k ==> Shown(r, j) == History(es, j)
  }

  lemma HistoryAppend(es: seq<Event>, e: Event, k: ServerId)
    ensures History(es + [e], k) == if e.Key() == k then View(e) else History(es, k)
  {
    LastOfAppend(es, e, k);
  }

  lemma HistoryConcat(es: seq<Event>, fs: seq<Event>, k: ServerId)
    ensures History(es + fs, k) == if LastOf(fs, k).Some? then History(fs, k) else History(es, k)
  {
    LastOfConcat(es, fs, k);
  }

  lemma HistoryIsFold(es: seq<Event>, k: ServerId)
    ensures k in TableColumns(Fold(es)) <==> History(es, k).Some?
    ensures k in TableColumns(Fold(es)) ==> Some(TableColumns(Fold(es))[k]) == History(es, k)
  {
    FoldIsLastWriter(es, k);
  }

  lemma AgreesIff(s: State)
    ensures Agrees(s) <==> forall k :: Shown(s.replica, k) == History(s.stream, k)
  {
    forall k: ServerId
      ensures k in Columns(s.replica) <==> Shown(s.replica, k).Some?
      ensures k in Columns(s.replica) ==> Some(Columns(s.replica)[k]) == Shown(s.replica, k)
      ensures k in TableColumns(Fold(s.stream)) <==> History(s.stream, k).Some?
      ensures k in TableColumns(Fold(s.stream)) ==> Some(TableColumns(Fold(s.stream))[k]) == History(s.stream, k)
    {
      HistoryIsFold(s.stream, k);
    }
    if forall k :: Shown(s.replica, k) == History(s.stream, k) {
      assert forall k :: k in Columns(s.replica) <==> k in TableColumns(Fold(s.stream));
    } else {
      var k :| Shown(s.replica, k) != History(s.stream, k);
      assert k in Columns(s.replica) || k in TableColumns(Fold(s.stream));
    }
  }

  // ----- The two stages -----

  /**
   `Before` the replay of entry `a`, every other server shows the first `y` entries. `After` it, work goes on from
   entry `x0`, and the server of `a` shows entry `a` followed by the entries from `x0` to `nk`.
   */
  datatype Stage = Before(y: nat) | After(x0: nat, y: nat, nk: nat)

  ghost predicate BeforeReplay(s: State, a: nat, hi: nat, y: nat)
    requires a < |s.stream|
  {
    var x := s.delivered - |s.pending| + 1;
    && a < x <= hi <= s.delivered <= |s.stream| && s.pending == [a] + Range(x, s.delivered)
    && x <= y <= x + 1 && y <= s.delivered
    && OthersShown(s.replica, s.stream[..y], s.stream[a].Key())
    && (if s.work == [] then s.mode == Recovering(false) && !s.handled
        else if s.work[0] == a then AtReplay(s, a)
        else RestOfPage(s, x, hi, y))
  }

  /** A recovery read has returned entry `a` again. */
  ghost predicate AtReplay(s: State, a: nat)
    requires a < |s.stream|
  {
    && s.mode.Recovering? && s.work <= s.pending && (s.mode == Recovering(true) ==> s.work == s.pending)
    && (s.handled ==> Shown(s.replica, s.stream[a].Key()) == View(s.stream[a]))
  }

  /** The rest of the page is worked off, from entry `x`. */
  ghost predicate RestOfPage(s: State, x: nat, hi: nat, y: nat) {
    && s.mode == Recovering(false) && x + |s.work| <= hi && s.work == Range(x, x + |s.work|)
    && (s.handled ==> y == x + 1)
  }

  ghost predicate AfterReplay(s: State, a: nat, hi: nat, x0: nat, y: nat, nk: nat)
    requires a < |s.stream|
  {
    var x := s.delivered - |s.pending|;
    && a < x0 <= hi && x0 <= x <= s.delivered <= |s.stream| && s.pending == Range(x, s.delivered)
    && s.work <= s.pending && (s.mode != Recovering(false) ==> s.work == s.pending)
    && x <= y <= x + 1 && y <= s.delivered && x <= nk <= x + 1 && nk <= s.delivered
    && (s.handled ==> s.work != [] && y == nk == x + 1)
    && OthersShown(s.replica, s.stream[..y], s.stream[a].Key())
    && Shown(s.replica, s.stream[a].Key()) == History([s.stream[a]] + s.stream[x0..nk], s.stream[a].Key())
  }

  ghost predicate Late(s: State, a: nat, hi: nat, p: Stage) {
    && a < hi <= |s.stream|
    && match p
       case Before(y) => BeforeReplay(s, a, hi, y)
       case After(x0, y, nk) => AfterReplay(s, a, hi, x0, y, nk)
  }

  // ----- Clean steps keep the stages -----

  /** Handling entry `x` brings every server but `k` to the first `x + 1` entries, again or for the first time. */
  lemma HandleShows(r: ReplicaTable, stream: seq<Event>, x: nat, y: nat, k: ServerId)
    requires x < |stream| && x <= y <= x + 1 && OthersShown(r, stream[..y], k)
    ensures OthersShown(Replicate(r, stream[x]), stream[..x + 1], k)
  {
    var e := stream[x];
    assert stream[..x + 1] == stream[..x] + [e];
    forall j | j != k ensures Shown(Replicate(r, e), j) == History(stream[..x + 1], j) {
      HistoryAppend(stream[..x], e, j);
      assert Shown(r, j) == History(stream[..y], j);
    }
  }

  lemma HandleBefore(s: State, a: nat, hi: nat, y: nat) returns (y': nat)
    requires Late(s, a, hi, Before(y)) && Enabled(s, Handle)
    ensures Late(Do(s, Handle), a, hi, Before(y'))
  {
    var x := s.delivered - |s.pending| + 1;
    var k := s.stream[a].Key();
    if s.work[0] == a {
      y' := y;
      var t := Do(s, Handle);
      assert forall j :: j != k ==> Shown(t.replica, j) == Shown(s.replica, j);
    } else {
      y' := x + 1;
      assert s.work[0] == x;
      HandleShows(s.replica, s.stream, x, y, k);
    }
  }

  /** The acknowledgement of the replayed entry ends the first stage. */
  lemma AckReplayed(s: State, a: nat, hi: nat, y: nat)
    requires Late(s, a, hi, Before(y)) && Enabled(s, Ack(true)) && s.work[0] == a
    ensures var x := s.delivered - |s.pending| + 1; Late(Do(s, Ack(true)), a, hi, After(x, y, x))
  {
    var x := s.delivered - |s.pending| + 1;
    assert s.pending[0] == a && s.pending[1..] == Range(x, s.delivered);
    assert [s.stream[a]] + s.stream[x..x] == [s.stream[a]];
    HistoryAppend([], s.stream[a], s.stream[a].Key());
    assert [] + [s.stream[a]] == [s.stream[a]];
  }

  lemma AckBefore(s: State, a: nat, hi: nat, y: nat)
    requires Late(s, a, hi, Before(y)) && Enabled(s, Ack(true)) && s.work[0] != a
    ensures Late(Do(s, Ack(true)), a, hi, Before(y))
  {
    var x := s.delivered - |s.pending| + 1;
    assert s.work[0] == x && y == x + 1 && y <= s.delivered;
    assert s.pending[1..] == Range(x, s.delivered) && Range(x, s.delivered)[1..] == Range(x + 1, s.delivered);
    assert Without(s.pending, x) == [a] + Without(Range(x, s.delivered), x);
    assert s.work[1..] == Range(x + 1, x + |s.work|);
  }

  lemma ReadBefore(s: State, a: nat, hi: nat, y: nat)
    requires Late(s, a, hi, Before(y)) && Enabled(s, ReadPending)
    ensures Late(Do(s, ReadPending), a, hi, Before(y))
  {
    assert s.pending[0] == a;
  }

  lemma StepBefore(s: State, a: nat, hi: nat, y: nat, step: Step) returns (p: Stage)
    requires Late(s, a, hi, Before(y)) && Enabled(s, step) && Clean(s, step)
    ensures Late(Do(s, step), a, hi, p)
  {
    p := Before(y);
    match step
    case Append(e) => assert (s.stream + [e])[..y] == s.stream[..y];
    case ReadPending => ReadBefore(s, a, hi, y);
    case Handle =>
      var y' := HandleBefore(s, a, hi, y);
      p := Before(y');
    case Ack(_) =>
      if s.work[0] == a {
        AckReplayed(s, a, hi, y);
        p := After(s.delivered - |s.pending| + 1, y, s.delivered - |s.pending| + 1);
      } else {
        AckBefore(s, a, hi, y);
      }
    case StatusEvent(id, status) =>
      assert forall j :: Shown(Do(s, step).replica, j) == Shown(s.replica, j);
    case _ =>
  }

  lemma HandleAfter(s: State, a: nat, hi: nat, x0: nat, y: nat, nk: nat)
    requires Late(s, a, hi, After(x0, y, nk)) && Enabled(s, Handle)
    ensures var x := s.delivered - |s.pending|; Late(Do(s, Handle), a, hi, After(x0, x + 1, x + 1))
  {
    var x := s.delivered - |s.pending|;
    var k, e := s.stream[a].Key(), s.stream[x];
    assert s.work[0] == x;
    HandleShows(s.replica, s.stream, x, y, k);
    var from := [s.stream[a]] + s.stream[x0..x];
    assert [s.stream[a]] + s.stream[x0..x + 1] == from + [e];
    HistoryAppend(from, e, k);
    if nk == x {
      assert Shown(s.replica, k) == History(from, k);
    } else {
      assert [s.stream[a]] + s.stream[x0..nk] == from + [e];
    }
  }

  lemma AckAfter(s: State, a: nat, hi: nat, x0: nat, y: nat, nk: nat)
    requires Late(s, a, hi, After(x0, y, nk)) && Enabled(s, Ack(true))
    ensures Late(Do(s, Ack(true)), a, hi, After(x0, y, nk))
  {
    var x := s.delivered - |s.pending|;
    assert s.work[0] == s.pending[0] == x;
    assert Without(s.pending, x) == s.pending[1..] == Range(x + 1, s.delivered);
  }

  lemma AppendAfter(s: State, a: nat, hi: nat, x0: nat, y: nat, nk: nat, e: Event)
    requires Late(s, a, hi, After(x0, y, nk))
    ensures Late(Do(s, Append(e)), a, hi, After(x0, y, nk))
  {
    assert (s.stream + [e])[..y] == s.stream[..y] && (s.stream + [e])[x0..nk] == s.stream[x0..nk];
  }

  lemma ReadAfter(s: State, a: nat, hi: nat, x0: nat, y: nat, nk: nat, step: Step)
    requires Late(s, a, hi, After(x0, y, nk)) && Enabled(s, step) && Clean(s, step)
    requires step.ReadPending? || step.EndRecovery? || step.ReadPendingFails? || step.ReadNew? ||
             step.ReadNewLost? || step.Crash?
    ensures Late(Do(s, step), a, hi, After(x0, y, nk))
  {
  }

  lemma StepAfter(s: State, a: nat, hi: nat, x0: nat, y: nat, nk: nat, step: Step) returns (p: Stage)
    requires Late(s, a, hi, After(x0, y, nk)) && Enabled(s, step) && Clean(s, step)
    ensures Late(Do(s, step), a, hi, p) && p.After? && p.x0 == x0
  {
    p := After(x0, y, nk);
    match step
    case Append(e) => AppendAfter(s, a, hi, x0, y, nk, e);
    case Handle =>
      HandleAfter(s, a, hi, x0, y, nk);
      p := After(x0, s.delivered - |s.pending| + 1, s.delivered - |s.pending| + 1);
    case Ack(_) => AckAfter(s, a, hi, x0, y, nk);
    case StatusEvent(id, status) =>
      assert forall j :: Shown(Do(s, step).replica, j) == Shown(s.replica, j);
    case _ => ReadAfter(s, a, hi, x0, y, nk, step);
  }

  /** A clean run keeps the stages, keeps the start of the work after the replay, and only appends to the stream. */
  lemma {:induction false} RunKeepsLate(s: State, a: nat, hi: nat, p: Stage, steps: seq<Step>) returns (q: Stage)
    requires Late(s, a, hi, p) && Runs(s, steps) && CleanRun(s, steps)
    ensures Late(Exec(s, steps), a, hi, q) && (p.After? ==> q.After? && q.x0 == p.x0)
    ensures s.stream <= Exec(s, steps).stream
    decreases |steps|
  {
    q := p;
    if steps != [] {
      var m: Stage;
      match p {
        case Before(y) => m := StepBefore(s, a, hi, y, steps[0]);
        case After(x0, y, nk) => m := StepAfter(s, a, hi, x0, y, nk, steps[0]);
      }
      q := RunKeepsLate(Do(s, steps[0]), a, hi, m, steps[1..]);
    }
  }

  /** At the drained end every other server is right, and the server of `a` shows `a` and what followed its replay. */
  lemma DrainedLate(s: State, a: nat, hi: nat, p: Stage)
    requires Late(s, a, hi, p) && Drained(s)
    ensures p.After? && a < p.x0 <= hi
    ensures Agrees(s) <==>
              History([s.stream[a]] + s.stream[p.x0..], s.stream[a].Key()) == History(s.stream, s.stream[a].Key())
  {
    var k := s.stream[a].Key();
    assert s.stream[..p.y] == s.stream && s.stream[p.x0..p.nk] == s.stream[p.x0..];
    AgreesIff(s);
    assert forall j :: j != k ==> Shown(s.replica, j) == History(s.stream, j);
  }

  // ----- The exact condition -----

  /**
   Replaying entry `a` behind the entries up to `hi` does no harm: a later entry is about its server, or the last one
   about it left the same name and address as `a`.
   */
  predicate Harmless(stream: seq<Event>, a: nat, hi: nat)
    requires a < hi <= |stream|
  {
    var k := stream[a].Key();
    LastOf(stream[hi..], k).Some? || History(stream, k) == View(stream[a])
  }

  lemma HistoryFrom(stream: seq<Event>, a: nat, x: nat)
    requires a < x <= |stream|
    ensures var k := stream[a].Key();
            History([stream[a]] + stream[x..], k) ==
            if LastOf(stream[x..], k).Some? then History(stream, k) else View(stream[a])
  {
    var k := stream[a].Key();
    HistoryConcat([stream[a]], stream[x..], k);
    HistoryAppend([], stream[a], k);
    assert [] + [stream[a]] == [stream[a]];
    HistoryConcat(stream[..x], stream[x..], k);
    assert stream[..x] + stream[x..] == stream;
  }

  lemma HarmlessAgrees(before: seq<Event>, stream: seq<Event>, a: nat, hi: nat, x0: nat)
    requires a < x0 <= hi <= |before| && before <= stream && Harmless(before, a, hi)
    ensures History([stream[a]] + stream[x0..], stream[a].Key()) == History(stream, stream[a].Key())
  {
    var k := stream[a].Key();
    var added := stream[|before|..];
    assert stream == before + added && stream[x0..] == before[x0..hi] + before[hi..] + added;
    HistoryFrom(stream, a, x0);
    LastOfConcat(before[x0..hi] + before[hi..], added, k);
    LastOfConcat(before[x0..hi], before[hi..], k);
    HistoryConcat(before, added, k);
  }

  /** The state in which entry `a` was left behind in a full recovery page that ends at `hi`. */
  lemma LeftInPage(s: State, n: nat, step: Step)
    requires Inv(s, n) && Enabled(s, step) && (step == HandlerFails || step == Ack(false))
    requires s.mode == Recovering(false)
    ensures var a := Acked(s); var t := Do(s, step);
            && t.stream == s.stream && Late(t, a, a + |s.work|, Before(a + 1)) && t.mode == Recovering(false)
            && !t.handled && t.work == Range(a + 1, a + |s.work|) && t.pending == [a] + Range(a + 1, t.delivered)
  {
    var a := Acked(s);
    var k := s.stream[a].Key();
    assert s.pending == [a] + Range(a + 1, s.delivered);
    assert s.work[1..] == Range(a + 1, a + |s.work|);
    PrefixShown(s.replica, s.stream[..n], k);
    assert s.stream[..a + 1] == s.stream[..a] + [s.stream[a]];
    forall j | j != k ensures Shown(s.replica, j) == History(s.stream[..a + 1], j) {
      HistoryAppend(s.stream[..a], s.stream[a], j);
    }
  }

  lemma PrefixShown(r: ReplicaTable, es: seq<Event>, k: ServerId)
    requires Columns(r) == TableColumns(Fold(es))
    ensures OthersShown(r, es, k)
  {
    forall j | j != k ensures Shown(r, j) == History(es, j) {
      HistoryIsFold(es, j);
      assert j in Columns(r) <==> Shown(r, j).Some?;
      assert j in Columns(r) ==> Some(Columns(r)[j]) == Shown(r, j);
    }
  }

  lemma HarmlessHeals(s: State, a: nat, hi: nat, y: nat)
    requires Late(s, a, hi, Before(y)) && Harmless(s.stream, a, hi)
    ensures Heals(s)
  {
    forall steps | Runs(s, steps) && CleanRun(s, steps) && Drained(Exec(s, steps)) ensures Agrees(Exec(s, steps)) {
      var t := Exec(s, steps);
      var q := RunKeepsLate(s, a, hi, Before(y), steps);
      DrainedLate(t, a, hi, q);
      HarmlessAgrees(s.stream, t.stream, a, hi, q.x0);
    }
  }

  // ----- The harmful continuation -----

  lemma {:induction false} ReachesConcat(s: State, first: seq<Step>, t: State, second: seq<Step>, u: State)
    requires Reaches(s, first, t) && Reaches(t, second, u)
    ensures Reaches(s, first + second, u)
    decreases |first|
  {
    if first == [] {
      assert first + second == second;
    } else {
      ReachesConcat(Do(s, first[0]), first[1..], t, second, u);
      assert (first + second)[1..] == first[1..] + second;
    }
  }

  /** A state that heals leads to such states only. */
  lemma HealsOn(s: State, steps: seq<Step>, t: State)
    requires Heals(s) && Reaches(s, steps, t)
    ensures Heals(t)
  {
    forall more | Runs(t, more) && CleanRun(t, more) && Drained(Exec(t, more)) ensures Agrees(Exec(t, more)) {
      ReachesConcat(s, steps, t, more, Exec(t, more));
      assert Runs(s, steps + more);
    }
  }

  /** The rest of the page is handled and acknowledged. */
  lemma FinishPage(s: State, a: nat, hi: nat) returns (steps: seq<Step>, t: State)
    requires s.mode == Recovering(false) && !s.handled && a < hi <= s.delivered <= |s.stream|
    requires s.work == Range(a + 1, hi) && s.pending == [a] + Range(a + 1, s.delivered)
    ensures Reaches(s, steps, t) && t.stream == s.stream && t.delivered == s.delivered
    ensures t.mode == Recovering(false) && t.work == [] && !t.handled && t.pending == [a] + Range(hi, t.delivered)
  {
    steps, t := [], s;
    var x: nat := a + 1;
    while t.work != []
      invariant Reaches(s, steps, t) && t.stream == s.stream && t.delivered == s.delivered
      invariant t.mode == Recovering(false) && !t.handled && a < x <= hi
      invariant t.work == Range(x, hi) && t.pending == [a] + Range(x, t.delivered)
      decreases |t.work|
    {
      AckInPage(a, x, t.delivered);
      assert t.work[0] == x && t.work[1..] == Range(x + 1, hi);
      steps, t := Take(s, steps, t, Handle);
      steps, t := Take(s, steps, t, Ack(true));
      x := x + 1;
    }
  }

  lemma AckInPage(a: nat, x: nat, hi: nat)
    requires a < x < hi
    ensures Without([a] + Range(x, hi), x) == [a] + Range(x + 1, hi)
  {
    assert ([a] + Range(x, hi))[1..] == Range(x, hi) && Range(x, hi)[1..] == Range(x + 1, hi);
  }

  /** The entry left behind is read again, replayed and acknowledged. */
  lemma ReplayEntry(s: State, a: nat, hi: nat, y: nat) returns (steps: seq<Step>, t: State, y': nat)
    requires Late(s, a, hi, Before(y)) && s.mode == Recovering(false) && s.work == [] && !s.handled
    requires s.pending == [a] + Range(hi, s.delivered)
    ensures Reaches(s, steps, t) && Late(t, a, hi, After(hi, y', hi))
    ensures t.stream == s.stream && t.mode.Recovering? && !t.handled
  {
    assert s.pending[0] == a;
    steps, t := Take(s, [], s, ReadPending);
    ReadBefore(s, a, hi, y);
    y' := HandleBefore(t, a, hi, y);
    steps, t := Take(s, steps, t, Handle);
    AckReplayed(t, a, hi, y');
    steps, t := Take(s, steps, t, Ack(true));
  }

  /** Everything that is left is worked off. */
  lemma DrainAfter(s: State, a: nat, hi: nat, y: nat) returns (steps: seq<Step>, t: State)
    requires Late(s, a, hi, After(hi, y, hi)) && s.mode.Recovering? && !s.handled && s.delivered - |s.pending| == hi
    ensures Reaches(s, steps, t) && Drained(t) && t.stream == s.stream
  {
    var last := if s.pending == [] then a else s.pending[|s.pending| - 1];
    if s.pending == [] {
      assert [s.stream[a]] + s.stream[hi..hi] == [s.stream[a]];
      HistoryAppend([], s.stream[a], s.stream[a].Key());
      assert [] + [s.stream[a]] == [s.stream[a]];
    }
    steps, t := RecoverAll(s, [], s, last);
    steps, t := Take(s, steps, t, if t.mode == Recovering(true) then EndRecovery else ReadPending);
    steps, t := ReadOn(s, steps, t);
  }

  lemma HarmfulBreaks(s: State, a: nat, hi: nat)
    requires Late(s, a, hi, Before(a + 1)) && s.mode == Recovering(false) && !s.handled
    requires s.work == Range(a + 1, hi) && s.pending == [a] + Range(a + 1, s.delivered)
    requires !Harmless(s.stream, a, hi)
    ensures !Heals(s)
  {
    var page, t := FinishPage(s, a, hi);
    var p := RunKeepsLate(s, a, hi, Before(a + 1), page);
    assert t.pending[0] == a;
    var replay, u, y := ReplayEntry(t, a, hi, p.y);
    var rest, v := DrainAfter(u, a, hi, y);
    var q := RunKeepsLate(u, a, hi, After(hi, y, hi), rest);
    DrainedLate(v, a, hi, q);
    HistoryFrom(v.stream, a, hi);
    if Heals(s) {
      HealsOn(s, page, t);
      HealsOn(t, replay, u);
    }
  }

  /**
   A handler error or a lost acknowledgement does no harm exactly in a full recovery page, which is read again, and
   there exactly if the replay of the entry behind the page is harmless.
   */
  lemma EntryLeftBehindHealsIff(s: State, n: nat, step: Step)
    requires Inv(s, n) && Enabled(s, step) && (step == HandlerFails || step == Ack(false))
    ensures Heals(Do(s, step)) <==>
              s.mode == Recovering(false) && Harmless(s.stream, Acked(s), Acked(s) + |s.work|)
  {
    var a, hi := Acked(s), Acked(s) + |s.work|;
    if s.mode != Recovering(false) {
      EntryLeftBehind(s, n, step);
    } else {
      LeftInPage(s, n, step);
      if Harmless(s.stream, a, hi) {
        HarmlessHeals(Do(s, step), a, hi, a + 1);
      } else {
        HarmfulBreaks(Do(s, step), a, hi);
      }
    }
  }
}
