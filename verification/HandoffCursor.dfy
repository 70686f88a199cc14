/** Which cursors the handoff can serve. A reader is sent an entry it already
    has exactly when that entry's shadow can reach its queue: the feed learns
    of a cursor only when something is delivered from the tail. */
module HandoffCursor {
  import opened Options
  import opened Feed
  import opened Handoff

  /** What the relay charges for the smallest entry. */
  const LEAST: Size := EntrySize(SMALLEST_PAYLOAD)

  function Grown(weight: nat, more: nat): nat
    decreases more
  {
    if more == 0 then weight else Grown(weight + LEAST, more - 1)
  }

  lemma {:induction false} GrownMore(weight: nat, more: nat)
    ensures Grown(weight, more + 1) == Grown(weight, more) + LEAST
    ensures Grown(weight, more) >= weight
    decreases more
  {
    if more > 0 { GrownMore(weight + LEAST, more - 1); }
  }

  /** The least weight of the first `n` entries offered, the first of which
      weighs `first`. */
  function LeastWeight(first: Size, n: nat): nat {
    if n == 0 then 0 else Grown(first, n - 1)
  }

  function FirstSize(s: State): Size {
    if s.todo != [] && s.todo[0].Shadow? then s.todo[0].size else LEAST
  }

  /** What decides, before the call, whether a reader can be sent an entry that
      its cursor covers. Past the last entry, the entries up to the cursor must
      be committed after it subscribes, and all but the last of them must stay
      in its queue. */
  predicate Safe(s: State, cursor: nat, maxLag: int) {
    || s.active
    || s.closed
    || cursor <= s.pub
    || (cursor > s.last && (s.degraded || s.terminal))
    || (cursor > s.last && cursor - s.pub > 2 && LeastWeight(FirstSize(s), cursor - s.pub - 1) > maxLag)
  }

  // A cursor that the stream will never reach.

  predicate Stuck(s: State) {
    && s.last < s.cursor == s.seen
    && s.out == []
    && (s.degraded || s.terminal)
    && (s.phase.Attached? || s.phase.Located? || s.phase.Gone?)
  }

  lemma StuckProducer(s: State, a: Action, t: State, maxLag: int)
    requires Stuck(s) && ProducerStep(s, a, maxLag) == Some(t)
    ensures Stuck(t)
  {
  }

  lemma StuckReader(s: State, a: Action, t: State)
    requires Stuck(s) && ReaderStep(s, a) == Some(t)
    ensures Stuck(t)
  {
  }

  lemma {:induction false} StuckRun(s: State, acts: seq<Action>, t: State, maxLag: int)
    requires Trace(s, acts, t, maxLag) && Stuck(s)
    ensures Exact(t.out, s.cursor, t.seen)
    decreases |acts|
  {
    if acts != [] {
      var next := Step(s, acts[0], maxLag).value;
      if ProducerStep(s, acts[0], maxLag).Some? {
        StuckProducer(s, acts[0], next, maxLag);
        ProducerAside(s, acts[0], next, maxLag);
      } else {
        StuckReader(s, acts[0], next);
        ReaderAttached(s, acts[0], next);
      }
      StuckRun(next, acts[1..], t, maxLag);
    }
  }

  // A cursor so far ahead that the queue is lost before the stream reaches it.

  /** The shadow that the reader is to be offered next. */
  function Coming(s: State): Option<Frame> {
    if s.flight.Some? && s.flight.value.Shadow? then s.flight
    else if s.todo != [] && s.todo[0].Shadow? then Some(s.todo[0])
    else None
  }

  /** The queue holds every shadow offered since the reader joined. */
  predicate Heavy(sub: Subscriber, offered: int, coming: Option<Frame>, first: Size, maxLag: int) {
    && !sub.lagged && sub.ackedSeq == 0
    && 0 <= offered <= |sub.queue|
    && Weight(sub.queue) >= LeastWeight(first, offered)
    && (|sub.queue| > 1 ==> Weight(sub.queue) <= maxLag)
    && (if coming.Some? then coming.value.size >= if offered == 0 then first else LEAST
        else offered == 0 ==> first == LEAST)
  }

  predicate Early(s: State, first: Size, maxLag: int) {
    && Producing(s)
    && (s.phase.Attached? || s.phase.Located?) && s.phase.gap.None?
    && s.last < s.cursor == s.seen && s.out == []
    && s.cursor - s.joined > 2
    && LeastWeight(first, s.cursor - s.joined - 1) > maxLag
    && s.sub.Some? && Heavy(s.sub.value, Offered(s) - s.joined, Coming(s), first, maxLag)
  }

  /** The entry that the cursor names cannot be committed while the queue stands. */
  lemma CommitEarly(s: State, payload: nat, final: bool, first: Size, maxLag: int)
    requires Early(s, first, maxLag) && Idle(s) && !s.degraded && !s.terminal && payload >= SMALLEST_PAYLOAD
    ensures Early(Committed(s, payload, final), first, maxLag)
  {
    assert Offered(s) == s.last;
    assert s.last + 1 < s.cursor;
  }

  lemma EnqueueEarly(s: State, t: State, first: Size, maxLag: int)
    requires Early(s, first, maxLag) && ProducerStep(s, Action.Enqueue, maxLag) == Some(t)
    ensures Early(t, first, maxLag) || Inv(t)
  {
    var q, f, offered := s.sub.value.queue, s.flight.value, Offered(s) - s.joined;
    WeightAppend(q, f);
    if f.Shadow? && offered > 0 { GrownMore(first, offered - 1); }
  }

  lemma SettledEarly(s: State, a: Action, t: State, first: Size, maxLag: int)
    requires Early(s, first, maxLag) && ProducerStep(s, a, maxLag) == Some(t) && !a.Enqueue? && !a.Commit?
    ensures Early(t, first, maxLag)
  {
  }

  lemma ReaderEarly(s: State, a: Action, t: State, first: Size, maxLag: int)
    requires Early(s, first, maxLag) && ReaderStep(s, a) == Some(t)
    ensures Early(t, first, maxLag) || Inv(t)
  {
  }

  lemma StepEarly(s: State, a: Action, t: State, first: Size, maxLag: int)
    requires Early(s, first, maxLag) && Step(s, a, maxLag) == Some(t)
    ensures Early(t, first, maxLag) || Inv(t)
  {
    if ProducerStep(s, a, maxLag).Some? {
      if a.Commit? {
        CommitEarly(s, a.payload, a.final, first, maxLag);
      } else if a.Enqueue? {
        EnqueueEarly(s, t, first, maxLag);
      } else {
        SettledEarly(s, a, t, first, maxLag);
      }
    } else {
      ReaderEarly(s, a, t, first, maxLag);
    }
  }

  lemma {:induction false} EarlyRun(s: State, acts: seq<Action>, t: State, first: Size, maxLag: int)
    requires Trace(s, acts, t, maxLag) && (Early(s, first, maxLag) || (Inv(s) && !s.phase.Absent?))
    ensures Exact(t.out, s.cursor, t.seen)
    decreases |acts|
  {
    if Inv(s) && !s.phase.Absent? {
      AttachedRun(s, acts, t, maxLag);
    } else if acts != [] {
      var next := Step(s, acts[0], maxLag).value;
      StepAttached(s, acts[0], next, maxLag);
      StepEarly(s, acts[0], next, first, maxLag);
      EarlyRun(next, acts[1..], t, first, maxLag);
    }
  }

  // Every other cursor: a run in which the reader is sent an entry again.

  /** A reader that has read the stream state and not opened its tail. */
  predicate Poised(s: State, queue: seq<Frame>) {
    && s.phase.Located? && s.phase.gap.None? && s.phase.relayStart <= s.cursor == s.seen
    && s.out == [] && s.sub == Some(Subscriber(queue, 0, false))
    && s.flight.None? && !s.closed && !s.degraded
  }

  /** The first shadow in the queue is sent, whatever the cursor says. */
  lemma SendQueued(s: State, queue: seq<Frame>, maxLag: int) returns (acts: seq<Action>, t: State)
    requires Poised(s, queue) && s.cursor == s.last && queue != [] && queue[0].Shadow?
    ensures Trace(s, acts, t, maxLag) && t.out == [Entry(queue[0].at)]
  {
    var s1 := s.(phase := Tailing(None, s.phase.relayStart, false, false));
    var s2 := s1.(phase := Relaying);
    t, acts := Popped(s2), [];
    Prepend(s2, Next, t, acts, t, maxLag);
    acts := [Next] + acts;
    Prepend(s1, TailEnd(false), s2, acts, t, maxLag);
    acts := [TailEnd(false)] + acts;
    Prepend(s, OpenTail(true), s1, acts, t, maxLag);
    acts := [OpenTail(true)] + acts;
  }

  /** The waiting shadow enters the queue. */
  function Filled(s: State, queue: seq<Frame>): State
    requires s.todo != []
  {
    s.(todo := s.todo[1..], pub := if s.todo[0].Shadow? then s.todo[0].at else s.pub,
       sub := Some(Subscriber(queue + [s.todo[0]], 0, false)))
  }

  lemma Offer(s: State, queue: seq<Frame>, acts: seq<Action>, t: State, maxLag: int)
    requires Poised(s, queue) && s.todo != [] && s.todo[0].Shadow? && s.todo[0].at > 0
    requires queue == [] || Weight(queue) + s.todo[0].size <= maxLag
    requires Trace(Filled(s, queue), acts, t, maxLag)
    ensures Trace(s, [Snapshot] + ([Action.Enqueue] + acts), t, maxLag)
  {
    var f := s.todo[0];
    var s1 := s.(todo := s.todo[1..], pub := f.at, flight := Some(f));
    Prepend(s1, Action.Enqueue, Filled(s, queue), acts, t, maxLag);
    Prepend(s, Snapshot, s1, [Action.Enqueue] + acts, t, maxLag);
  }

  /** The entry that the cursor names waits to be broadcast. */
  lemma SendWaiting(s: State, queue: seq<Frame>, maxLag: int) returns (acts: seq<Action>, t: State)
    requires Poised(s, queue) && s.cursor == s.last && (queue != [] ==> queue[0].Shadow?)
    requires s.todo != [] && s.todo[0].Shadow? && s.todo[0].at > 0
    ensures Trace(s, acts, t, maxLag)
    ensures t.out == [Entry(if queue == [] then s.todo[0].at else queue[0].at)]
  {
    if queue == [] {
      acts, t := SendQueued(Filled(s, queue), queue + [s.todo[0]], maxLag);
      Offer(s, queue, acts, t, maxLag);
      acts := [Snapshot] + ([Action.Enqueue] + acts);
    } else {
      acts, t := SendQueued(s, queue, maxLag);
    }
  }

  /** `more` further entries fit in the queue. */
  predicate Fits(queue: seq<Frame>, more: nat, maxLag: int) {
    more == 0 || (queue == [] && more == 1) || Grown(Weight(queue), more) <= maxLag
  }

  /** The stream catches up with the cursor while the reader is poised. */
  lemma {:induction false} CatchUp(s: State, queue: seq<Frame>, maxLag: int) returns (acts: seq<Action>, t: State)
    requires Poised(s, queue) && s.todo == [] && s.pub == s.last < s.cursor && !s.terminal
    requires queue != [] ==> queue[0].Shadow?
    requires Fits(queue, s.cursor - s.last - 1, maxLag)
    ensures Trace(s, acts, t, maxLag)
    ensures t.out == [Entry(if queue == [] then s.last + 1 else queue[0].at)]
    decreases s.cursor - s.last
  {
    var s1 := Committed(s, SMALLEST_PAYLOAD, false);
    if s1.last == s.cursor {
      acts, t := SendWaiting(s1, queue, maxLag);
    } else {
      var f := s1.todo[0];
      WeightAppend(queue, f);
      if s.cursor - s.last > 2 { GrownMore(Weight(queue) + LEAST, s.cursor - s.last - 2); }
      acts, t := CatchUp(Filled(s1, queue), queue + [f], maxLag);
      Offer(s1, queue, acts, t, maxLag);
      acts := [Snapshot] + ([Action.Enqueue] + acts);
    }
    Prepend(s, Commit(SMALLEST_PAYLOAD, false), s1, acts, t, maxLag);
    acts := [Commit(SMALLEST_PAYLOAD, false)] + acts;
  }

  lemma OfferThenCatchUp(s: State, maxLag: int) returns (acts: seq<Action>, t: State)
    requires Poised(s, []) && |s.todo| == 1 && s.pub < s.last < s.cursor && !s.terminal
    requires s.todo[0].Shadow? && s.todo[0].at == s.last
    requires s.cursor - s.last > 1 ==> Grown(s.todo[0].size, s.cursor - s.last - 1) <= maxLag
    ensures Trace(s, acts, t, maxLag) && t.out == [Entry(s.last)]
  {
    var none, f := [], s.todo[0];
    assert none + [f] == [f];
    acts, t := CatchUp(Filled(s, none), [f], maxLag);
    Offer(s, none, acts, t, maxLag);
    acts := [Snapshot] + ([Action.Enqueue] + acts);
  }

  /** A reader whose cursor is not safe can be sent an entry that the cursor
      covers: the first one broadcast after it subscribed. */
  lemma RepeatedEntry(s: State, cursor: nat, maxLag: int) returns (acts: seq<Action>, t: State)
    requires Reachable(s, maxLag) && s.phase.Absent? && !Safe(s, cursor, maxLag)
    ensures Trace(Resumed(s, cursor), acts, t, maxLag)
    ensures t.out == [Entry(s.pub + 1)] && s.pub + 1 <= cursor
  {
    var before :| Trace(Init(), before, s, maxLag);
    AbsentRun(Init(), before, s, maxLag);
    var s1 := Resumed(s, cursor).(phase := Located(None, s.last));
    if s.pub == s.last {
      acts, t := RepeatLater(s, s1, cursor, maxLag);
    } else {
      acts, t := RepeatWaiting(s, s1, cursor, maxLag);
    }
    Prepend(Resumed(s, cursor), Locate, s1, acts, t, maxLag);
    acts := [Locate] + acts;
  }

  /** Everything committed has been broadcast: the stream goes on to the cursor. */
  lemma RepeatLater(s: State, s1: State, cursor: nat, maxLag: int) returns (acts: seq<Action>, t: State)
    requires Inv(s) && s.phase.Absent? && !Safe(s, cursor, maxLag) && s.pub == s.last
    requires s1 == Resumed(s, cursor).(phase := Located(None, s.last))
    ensures Trace(s1, acts, t, maxLag) && t.out == [Entry(s.pub + 1)]
  {
    assert s.todo == [] && s.flight.None?;
    acts, t := CatchUp(s1, [], maxLag);
  }

  /** An entry is committed and waits to be broadcast. */
  lemma RepeatWaiting(s: State, s1: State, cursor: nat, maxLag: int) returns (acts: seq<Action>, t: State)
    requires Inv(s) && s.phase.Absent? && !Safe(s, cursor, maxLag) && s.pub != s.last
    requires s1 == Resumed(s, cursor).(phase := Located(None, s.last))
    ensures Trace(s1, acts, t, maxLag) && t.out == [Entry(s.pub + 1)]
  {
    assert |s.todo| == 1 && s.todo[0].Shadow? && s.todo[0].at == s.last == s.pub + 1;
    if cursor == s.last {
      acts, t := SendWaiting(s1, [], maxLag);
    } else {
      acts, t := OfferThenCatchUp(s1, maxLag);
    }
  }

  /** Both kinds of unsafe cursor arise: one that names an entry committed and
      not yet broadcast, and one past the last entry. */
  lemma UnsafeReachable(maxLag: int) returns (s: State)
    ensures Reachable(s, maxLag) && s.phase.Absent? && s.pub < s.last && !Safe(s, s.last, maxLag)
    ensures Reachable(Init(), maxLag) && Init().phase.Absent? && !Safe(Init(), Init().last + 1, maxLag)
  {
    s := Committed(Init(), SMALLEST_PAYLOAD, false);
    Prepend(Init(), Commit(SMALLEST_PAYLOAD, false), s, [], s, maxLag);
    assert Trace(Init(), [], Init(), maxLag);
  }

  lemma SafeExact(s: State, cursor: nat, acts: seq<Action>, t: State, maxLag: int)
    requires Reachable(s, maxLag) && s.phase.Absent? && Safe(s, cursor, maxLag)
    requires Trace(Resumed(s, cursor), acts, t, maxLag)
    ensures Exact(t.out, cursor, t.seen)
  {
    var before :| Trace(Init(), before, s, maxLag);
    AbsentRun(Init(), before, s, maxLag);
    if s.active || s.closed || cursor <= s.pub {
      ResumedReaderExact(s, cursor, acts, t, maxLag);
    } else if s.degraded || s.terminal {
      StuckRun(Resumed(s, cursor), acts, t, maxLag);
    } else {
      EarlyRun(Resumed(s, cursor), acts, t, FirstSize(s), maxLag);
    }
  }

  /** For every state in which a reader can come and every cursor it can name:
      each run that follows sends exactly the entries after the cursor, in
      order, if and only if the cursor is safe. */
  lemma ResumeExactIff(s: State, cursor: nat, maxLag: int)
    requires Reachable(s, maxLag) && s.phase.Absent?
    ensures Safe(s, cursor, maxLag) <==> AlwaysExact(Resumed(s, cursor), cursor, maxLag)
  {
    if Safe(s, cursor, maxLag) {
      forall acts, t | Trace(Resumed(s, cursor), acts, t, maxLag) ensures Exact(t.out, cursor, t.seen) {
        SafeExact(s, cursor, acts, t, maxLag);
      }
    } else {
      var acts, t := RepeatedEntry(s, cursor, maxLag);
      assert t.out[0] == Entry(s.pub + 1);
      assert AlwaysExact(Resumed(s, cursor), cursor, maxLag) ==> Exact(t.out, cursor, t.seen);
    }
  }
}
