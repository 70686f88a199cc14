/** A reader's switch from the journal tail to the relay, under every
    interleaving with the producer that commits, publishes and may lose
    durability. Each action is one critical section or one channel operation. */
module Handoff {
  import opened Options
  import opened Feed

  /** What the client is sent. */
  datatype Out = Entry(at: nat) | Unsequenced

  datatype Phase =
    | Absent
    /** Attached; the stream state has not been read. */
    | Attached(gap: Option<nat>)
    /** The state showed `relayStart` as the last entry. */
    | Located(gap: Option<nat>, relayStart: nat)
    /** The initial reader, before it opens its tail. */
    | Greeting(owed: bool)
    | Tailing(gap: Option<nat>, relayStart: nat, owed: bool, degraded: bool)
    | Relaying
    /** The relay closed with nothing left in it. */
    | Drained
    | Gone

  /** `todo` is what the holder of the write lock still has to broadcast;
      `flight` a broadcast whose list of readers includes this one; `pub` the
      last entry whose broadcast has listed its readers; `joined` the value of
      `pub` when this reader subscribed. */
  datatype State = State(
    last: nat, pub: nat, todo: seq<Frame>, flight: Option<Frame>, degraded: bool, terminal: bool,
    active: bool, boundary: nat, closed: bool,
    sub: Option<Subscriber>, joined: nat, phase: Phase, cursor: nat, seen: nat, out: seq<Out>)

  datatype Action =
    | Commit(payload: nat, final: bool) | Fail(warning: Frame, lost: seq<Frame>) | Activate
    | Live(frame: Frame, final: bool) | Snapshot | Enqueue | Close
    | Start | Resume(cursor: nat) | Locate | OpenTail(ok: bool) | First
    | TailEntry | Acknowledge | SeeActivated | Switch | TailEnd(notice: bool) | GapEnd | Evict | Next | Leave

  /** After the open entry, before the producer starts. */
  function Init(): State {
    State(1, 1, [], None, false, false, false, 0, false, None, 0, Absent, 0, 0, [])
  }

  predicate Idle(s: State) { s.todo == [] && s.flight.None? }

  function Committed(s: State, payload: nat, final: bool): State {
    s.(last := s.last + 1, todo := [Shadow(s.last + 1, EntrySize(payload))], terminal := final)
  }

  function ProducerStep(s: State, a: Action, maxLag: int): Option<State> {
    match a
    case Commit(payload, final) =>
      if Idle(s) && !s.degraded && !s.terminal && payload >= SMALLEST_PAYLOAD
      then Some(Committed(s, payload, final)) else None
    case Fail(warning, lost) =>
      if Idle(s) && !s.degraded && !s.terminal && warning.Loose? && forall i | 0 <= i < |lost| :: lost[i].Loose?
      then Some(s.(degraded := true, todo := [warning] + lost)) else None
    case Activate =>
      if s.degraded && !s.active && !s.closed then Some(s.(active := true, boundary := s.last)) else None
    case Live(frame, final) =>
      if Idle(s) && s.active && !s.terminal && frame.Loose?
      then Some(s.(todo := [frame], terminal := final)) else None
    case Snapshot =>
      if s.todo != [] && s.flight.None? && (s.degraded ==> s.active)
      then var f := s.todo[0];
           Some(s.(todo := s.todo[1..], pub := if f.Shadow? then f.at else s.pub,
                   flight := if s.sub.Some? && !s.closed then Some(f) else None))
      else None
    case Enqueue =>
      if s.flight.Some?
      then Some(s.(flight := None,
                   sub := if s.sub.Some? && !s.closed
                          then Some(Enqueued(s.sub.value, s.flight.value, maxLag)) else s.sub))
      else None
    case Close =>
      if Idle(s) && s.terminal then Some(s.(closed := true)) else None
    case _ => None
  }

  /** Subscribing fails once the feed is active or closed. A reader that comes
      after the boundary was set may replay up to it, and one at it may not. */
  function Resumed(s: State, cursor: nat): State {
    var t := s.(cursor := cursor, seen := cursor, joined := s.pub);
    if s.active && cursor == s.boundary then t.(phase := Gone)
    else if s.active then t.(phase := Attached(if cursor < s.boundary then Some(s.boundary) else None))
    else if s.closed then t.(phase := Attached(None))
    else t.(phase := Attached(None), sub := Some(Subscriber([], 0, false)))
  }

  predicate AtGap(s: State) {
    s.phase.Tailing? && s.phase.gap.Some? && s.seen >= s.phase.gap.value
  }

  predicate AtRelay(s: State) {
    s.phase.Tailing? && s.sub.Some? && s.seen >= s.phase.relayStart
  }

  function ReaderStep(s: State, a: Action): Option<State> {
    match a
    case Start =>
      if s.phase.Absent? && s.last == 1 && !s.degraded
      then Some(s.(sub := Some(Subscriber([], 0, false)), joined := s.pub, phase := Greeting(true),
                   cursor := 0, seen := 1, out := [Entry(1)]))
      else None
    case First =>
      if s.phase == Greeting(false) && s.seen == 1 && s.pub >= 2
      then Some(s.(phase := Greeting(true), seen := 2, out := s.out + [Entry(2)])) else None
    case Resume(cursor) =>
      if s.phase.Absent? then Some(Resumed(s, cursor)) else None
    case Locate =>
      if s.phase.Attached? then Some(s.(phase := Located(s.phase.gap, s.last))) else None
    case OpenTail(ok) =>
      if s.phase.Located?
      then Some(s.(phase := if ok && s.cursor <= s.last
                            then Tailing(s.phase.gap, s.phase.relayStart, false, false) else Gone))
      else if s.phase == Greeting(false) && s.seen == 2
      then Some(s.(phase := if ok then Tailing(None, 2, false, false) else Relaying))
      else None
    case TailEntry =>
      if s.phase.Tailing? && !s.phase.owed && !AtGap(s) && !(s.phase.degraded && AtRelay(s)) && s.seen < s.last
      then Some(s.(phase := s.phase.(owed := true), seen := s.seen + 1, out := s.out + [Entry(s.seen + 1)]))
      else None
    case Acknowledge =>
      if (s.phase.Tailing? || s.phase.Greeting?) && s.phase.owed
      then Some(s.(phase := s.phase.(owed := false),
                   sub := if s.sub.Some? then Some(Acked(s.sub.value, s.seen)) else None))
      else None
    case SeeActivated =>
      if s.active && s.sub.Some? && s.phase.Tailing? && !s.phase.owed
      then Some(s.(phase := s.phase.(degraded := true)))
      else if s.active && s.phase == Greeting(false) && s.seen == 1 then Some(s.(phase := Relaying))
      else None
    case Switch =>
      if AtRelay(s) && !s.phase.owed && s.phase.degraded then Some(s.(phase := Relaying)) else None
    case TailEnd(notice) =>
      if s.phase.Tailing? && !s.phase.owed
      then if AtRelay(s) then Some(s.(phase := Relaying))
           else Some(s.(phase := Gone, out := s.out + if notice then [Unsequenced] else []))
      else None
    case GapEnd =>
      if AtGap(s) && !s.phase.owed then Some(s.(phase := Gone, out := s.out + [Unsequenced])) else None
    case Evict =>
      if s.sub.Some? && s.sub.value.lagged && (s.phase.Tailing? || s.phase.Greeting?) && !s.phase.owed
      then Some(s.(phase := Gone, out := s.out + [Unsequenced])) else None
    case Next =>
      if !s.phase.Relaying? || s.sub.None? then None
      else if s.sub.value.lagged then Some(s.(phase := Gone, out := s.out + [Unsequenced]))
      else if s.sub.value.queue != [] then Some(Popped(s))
      else if s.closed then Some(s.(phase := Drained))
      else None
    case Leave =>
      if s.phase.Absent? then None else Some(s.(phase := Gone, sub := None))
    case _ => None
  }

  function Popped(s: State): State
    requires s.sub.Some? && s.sub.value.queue != []
  {
    var f, t := s.sub.value.queue[0], s.(sub := Some(s.sub.value.(queue := s.sub.value.queue[1..])));
    if f.Shadow? then t.(seen := f.at, out := s.out + [Entry(f.at)]) else t.(out := s.out + [Unsequenced])
  }

  function Step(s: State, a: Action, maxLag: int): Option<State> {
    var p := ProducerStep(s, a, maxLag);
    if p.Some? then p else ReaderStep(s, a)
  }

  ghost predicate Trace(s: State, acts: seq<Action>, t: State, maxLag: int)
    decreases |acts|
  {
    if acts == [] then s == t
    else Step(s, acts[0], maxLag).Some? && Trace(Step(s, acts[0], maxLag).value, acts[1..], t, maxLag)
  }

  ghost predicate Reachable(s: State, maxLag: int) {
    exists acts :: Trace(Init(), acts, s, maxLag)
  }

  /** The sequenced frames are cursor+1, cursor+2, ... up to `seen`, and no
      sequenced frame comes after an unsequenced one. */
  predicate Exact(out: seq<Out>, cursor: nat, seen: nat) {
    && cursor <= seen <= cursor + |out|
    && (forall i | 0 <= i < seen - cursor :: out[i] == Entry(cursor + 1 + i))
    && (forall i | seen - cursor <= i < |out| :: out[i].Unsequenced?)
  }

  ghost predicate AlwaysExact(s: State, cursor: nat, maxLag: int) {
    forall acts, t :: Trace(s, acts, t, maxLag) ==> Exact(t.out, cursor, t.seen)
  }

  lemma ExactEntry(out: seq<Out>, cursor: nat, seen: nat)
    requires Exact(out, cursor, seen) && |out| == seen - cursor
    ensures Exact(out + [Entry(seen + 1)], cursor, seen + 1)
  {
  }

  lemma ExactLoose(out: seq<Out>, cursor: nat, seen: nat)
    requires Exact(out, cursor, seen)
    ensures Exact(out + [Unsequenced], cursor, seen)
  {
  }

  /** At most one commit waits to be broadcast, and only before durability is lost. */
  predicate Producing(s: State) {
    && (forall i | 0 <= i < |s.todo| :: s.todo[i].Shadow? ==> |s.todo| == 1)
    && (if s.todo != [] && s.todo[0].Shadow?
        then s.todo[0].at == s.last == s.pub + 1 && s.flight.None? && !s.degraded else s.pub == s.last)
    && (s.todo != [] && s.todo[0].Loose? ==> s.degraded)
    && (s.flight.Some? && s.flight.value.Shadow? ==> s.flight.value.at == s.pub && s.todo == [] && !s.degraded)
    && (s.flight.Some? && s.flight.value.Loose? ==> s.degraded)
    && (s.flight.Some? ==> !s.phase.Absent?)
    && (s.active ==> s.degraded && s.boundary == s.last)
    && (s.closed ==> s.terminal && Idle(s))
  }

  /** The last entry that this reader's queue has been offered. */
  function Offered(s: State): int {
    if s.flight.Some? && s.flight.value.Shadow? then s.pub - 1 else s.pub
  }

  /** The shadows lo+1 .. hi, then loose frames if there can be any. */
  predicate Shape(queue: seq<Frame>, lo: int, hi: int, loose: bool)
    decreases |queue|
  {
    if lo < hi
    then queue != [] && queue[0].Shadow? && queue[0].at == lo + 1 && Shape(queue[1..], lo + 1, hi, loose)
    else (queue != [] ==> loose) && forall i | 0 <= i < |queue| :: queue[i].Loose?
  }

  lemma {:induction false} ShapeAppend(queue: seq<Frame>, lo: int, hi: int, loose: bool, f: Frame)
    requires Shape(queue, lo, hi, loose)
    requires if f.Shadow? then !loose && f.at == hi + 1 && lo <= hi else loose
    ensures Shape(queue + [f], lo, if f.Shadow? then hi + 1 else hi, loose)
    decreases |queue|
  {
    if lo < hi {
      assert (queue + [f])[1..] == queue[1..] + [f];
      ShapeAppend(queue[1..], lo + 1, hi, loose, f);
    } else if f.Shadow? {
      assert (queue + [f])[1..] == queue;
    }
  }

  lemma {:induction false} ShapeLoosened(queue: seq<Frame>, lo: int, hi: int)
    requires Shape(queue, lo, hi, false)
    ensures Shape(queue, lo, hi, true)
    decreases |queue|
  {
    if lo < hi { ShapeLoosened(queue[1..], lo + 1, hi); }
  }

  lemma {:induction false} ShapeTrimmed(queue: seq<Frame>, lo: int, hi: int, loose: bool, upTo: nat)
    requires Shape(queue, lo, hi, loose) && lo <= upTo
    ensures Shape(Trimmed(queue, upTo), upTo, hi, loose)
    decreases |queue|
  {
    if queue != [] && queue[0].Shadow? && queue[0].at <= upTo {
      ShapeTrimmed(queue[1..], lo + 1, hi, loose, upTo);
    }
  }

  function Low(s: State): int
    requires s.sub.Some?
  {
    if s.phase.Relaying? || s.phase.Drained? then s.seen
    else if s.joined < s.sub.value.ackedSeq then s.sub.value.ackedSeq else s.joined
  }

  /** Whatever was delivered from the tail has been, or is about to be, acknowledged. */
  predicate Caught(s: State)
    requires s.sub.Some?
  {
    var acked := s.sub.value.ackedSeq;
    var owed := (s.phase.Tailing? || s.phase.Greeting?) && s.phase.owed;
    !owed ==> acked == s.seen || (acked == 0 && s.seen == s.cursor)
  }

  /** A queue that was never dropped holds what the reader has yet to be sent. */
  predicate Queued(s: State)
    requires s.sub.Some?
  {
    && s.cursor <= s.joined <= Offered(s)
    && s.sub.value.ackedSeq <= s.seen
    && (!s.phase.Relaying? && !s.phase.Drained? ==> Caught(s))
    && (s.phase.Greeting? ==> s.joined <= s.seen)
    && (s.phase.Located? || s.phase.Tailing? ==> s.joined <= s.phase.relayStart)
    && (s.phase.Relaying? ==> s.seen <= Offered(s) || s.sub.value.ackedSeq == s.seen)
    && Shape(s.sub.value.queue, Low(s), Offered(s), s.degraded)
  }

  predicate Subscribed(s: State) {
    s.sub.Some? && !s.phase.Gone? ==>
      && !s.phase.Absent?
      && (s.phase.Attached? || s.phase.Located? || s.phase.Tailing? ==> s.phase.gap.None?)
      && (s.sub.value.lagged || Queued(s))
  }

  predicate Reading(s: State) {
    && (s.phase.Absent? ==> s.sub.None? && s.out == [] && s.cursor == s.seen)
    && (s.phase.Tailing? || s.phase.Relaying? || s.phase.Greeting? ==> s.seen <= s.last)
    && (s.phase.Greeting? ==> s.seen <= 2)
    && (s.phase.Greeting? || s.phase.Relaying? ==> s.sub.Some?)
    && Exact(s.out, s.cursor, s.seen)
    && (!s.phase.Relaying? && !s.phase.Gone? && !s.phase.Drained? ==> |s.out| == s.seen - s.cursor)
    && (s.phase.Attached? || s.phase.Located? ==> s.out == [])
    && (s.phase.Relaying? && |s.out| > s.seen - s.cursor ==> s.degraded && s.seen == s.last)
    && (s.phase.Drained? ==> s.closed && s.seen == s.last)
  }

  predicate Inv(s: State) {
    Producing(s) && Subscribed(s) && Reading(s)
  }

  predicate Allowed(s: State, a: Action) {
    a.Resume? && Resumed(s, a.cursor).sub.Some? ==> a.cursor <= s.pub
  }

  lemma CommitKeeps(s: State, payload: nat, final: bool)
    requires Inv(s) && Idle(s) && !s.degraded && !s.terminal
    ensures Inv(Committed(s, payload, final))
  {
  }

  /** Losing durability only lets unsequenced frames into the queue. */
  lemma FailKeeps(s: State, frames: seq<Frame>)
    requires Inv(s) && Idle(s) && !s.degraded && !s.terminal
    requires frames != [] && forall i | 0 <= i < |frames| :: frames[i].Loose?
    ensures Inv(s.(degraded := true, todo := frames))
  {
    if s.sub.Some? && !s.phase.Gone? && !s.sub.value.lagged {
      ShapeLoosened(s.sub.value.queue, Low(s), Offered(s));
    }
  }

  lemma SnapshotKeeps(s: State, t: State, maxLag: int)
    requires Inv(s) && ProducerStep(s, Snapshot, maxLag) == Some(t)
    ensures Inv(t)
  {
  }

  lemma SettledKeeps(s: State, a: Action, t: State, maxLag: int)
    requires Inv(s) && ProducerStep(s, a, maxLag) == Some(t) && (a.Activate? || a.Live? || a.Close?)
    ensures Inv(t)
  {
  }

  lemma EnqueueKeeps(s: State, t: State, maxLag: int)
    requires Inv(s) && ProducerStep(s, Action.Enqueue, maxLag) == Some(t)
    ensures Inv(t)
  {
    var f := s.flight.value;
    if s.sub.Some? && !s.phase.Gone? && !s.sub.value.lagged && !(f.Shadow? && f.at <= s.sub.value.ackedSeq) {
      ShapeAppend(s.sub.value.queue, Low(s), Offered(s), s.degraded, f);
    }
  }

  lemma StartKeeps(s: State, t: State)
    requires Inv(s) && ReaderStep(s, Start) == Some(t)
    ensures Inv(t)
  {
  }

  lemma ResumeKeeps(s: State, cursor: nat)
    requires Inv(s) && s.phase.Absent? && Allowed(s, Resume(cursor))
    ensures Inv(Resumed(s, cursor))
  {
  }

  lemma LocateKeeps(s: State, t: State)
    requires Inv(s) && ReaderStep(s, Locate) == Some(t)
    ensures Inv(t)
  {
  }

  lemma FirstKeeps(s: State, t: State)
    requires Inv(s) && ReaderStep(s, First) == Some(t)
    ensures Inv(t)
  {
    ExactEntry(s.out, s.cursor, s.seen);
  }

  lemma OpenKeeps(s: State, a: Action, t: State)
    requires Inv(s) && ReaderStep(s, a) == Some(t) && a.OpenTail?
    ensures Inv(t)
  {
    if s.phase.Located? {
      LocatedKeeps(s, a.ok);
    } else if a.ok {
      GreetedKeeps(s);
    } else {
      RelayKeeps(s);
    }
  }

  lemma LocatedKeeps(s: State, ok: bool)
    requires Inv(s) && s.phase.Located?
    ensures Inv(ReaderStep(s, OpenTail(ok)).value)
  {
  }

  lemma GreetedKeeps(s: State)
    requires Inv(s) && s.phase == Greeting(false) && s.seen == 2
    ensures Inv(s.(phase := Tailing(None, 2, false, false)))
  {
  }

  /** The relay takes over where the tail left off. */
  lemma RelayKeeps(s: State)
    requires Inv(s) && s.sub.Some? && (s.phase.Greeting? || AtRelay(s)) && !s.phase.owed
    ensures Inv(s.(phase := Relaying))
  {
    assert s.sub.value.lagged || Low(s) == s.seen;
  }

  lemma EntryKeeps(s: State, t: State)
    requires Inv(s) && ReaderStep(s, TailEntry) == Some(t)
    ensures Inv(t)
  {
    ExactEntry(s.out, s.cursor, s.seen);
  }

  lemma SwitchKeeps(s: State, a: Action, t: State)
    requires Inv(s) && ReaderStep(s, a) == Some(t)
    requires a.SeeActivated? || a.Switch?
    ensures Inv(t)
  {
    if t.phase.Relaying? { RelayKeeps(s); }
  }

  lemma TailEndKeeps(s: State, a: Action, t: State)
    requires Inv(s) && ReaderStep(s, a) == Some(t) && a.TailEnd?
    ensures Inv(t)
  {
    if t.phase.Relaying? {
      RelayKeeps(s);
    } else {
      ExactLoose(s.out, s.cursor, s.seen);
      assert s.out + [] == s.out;
    }
  }

  lemma EndKeeps(s: State, a: Action, t: State)
    requires Inv(s) && ReaderStep(s, a) == Some(t)
    requires a.GapEnd? || a.Evict? || a.Leave?
    ensures Inv(t)
  {
    ExactLoose(s.out, s.cursor, s.seen);
  }

  lemma AcknowledgeKeeps(s: State, t: State)
    requires Inv(s) && ReaderStep(s, Action.Acknowledge) == Some(t)
    ensures Inv(t)
  {
    if s.sub.Some? && !s.sub.value.lagged && s.seen > s.sub.value.ackedSeq {
      ShapeTrimmed(s.sub.value.queue, Low(s), Offered(s), s.degraded, if s.joined < s.seen then s.seen else s.joined);
    }
  }

  lemma NextKeeps(s: State, t: State)
    requires Inv(s) && ReaderStep(s, Action.Next) == Some(t)
    ensures Inv(t)
  {
    if !s.sub.value.lagged && s.sub.value.queue != [] {
      PoppedKeeps(s);
    } else {
      ExactLoose(s.out, s.cursor, s.seen);
    }
  }

  lemma PoppedKeeps(s: State)
    requires Inv(s) && s.phase.Relaying? && s.sub.Some? && !s.sub.value.lagged && s.sub.value.queue != []
    ensures Inv(Popped(s))
  {
    var t := Popped(s);
    assert Shape(s.sub.value.queue, s.seen, Offered(s), s.degraded);
    if s.seen < Offered(s) {
      ExactEntry(s.out, s.cursor, s.seen);
    } else {
      ExactLoose(s.out, s.cursor, s.seen);
    }
  }

  lemma ProducerKeeps(s: State, a: Action, t: State, maxLag: int)
    requires Inv(s) && ProducerStep(s, a, maxLag) == Some(t)
    ensures Inv(t)
  {
    match a {
      case Commit(payload, final) => CommitKeeps(s, payload, final);
      case Fail(warning, lost) => FailKeeps(s, [warning] + lost);
      case Snapshot => SnapshotKeeps(s, t, maxLag);
      case Enqueue => EnqueueKeeps(s, t, maxLag);
      case Activate | Live(_, _) | Close => SettledKeeps(s, a, t, maxLag);
    }
  }

  lemma ReaderKeeps(s: State, a: Action, t: State)
    requires Inv(s) && ReaderStep(s, a) == Some(t) && Allowed(s, a)
    ensures Inv(t)
  {
    match a {
      case Start => StartKeeps(s, t);
      case Resume(cursor) => ResumeKeeps(s, cursor);
      case Locate => LocateKeeps(s, t);
      case First => FirstKeeps(s, t);
      case OpenTail(_) => OpenKeeps(s, a, t);
      case TailEntry => EntryKeeps(s, t);
      case Acknowledge => AcknowledgeKeeps(s, t);
      case SeeActivated | Switch => SwitchKeeps(s, a, t);
      case TailEnd(_) => TailEndKeeps(s, a, t);
      case Next => NextKeeps(s, t);
      case GapEnd | Evict | Leave => EndKeeps(s, a, t);
    }
  }

  lemma StepKeeps(s: State, a: Action, t: State, maxLag: int)
    requires Inv(s) && Step(s, a, maxLag) == Some(t) && Allowed(s, a)
    ensures Inv(t)
  {
    if ProducerStep(s, a, maxLag).Some? { ProducerKeeps(s, a, t, maxLag); } else { ReaderKeeps(s, a, t); }
  }

  /** A reader never becomes absent again, and keeps its cursor. */
  lemma StepAttached(s: State, a: Action, t: State, maxLag: int)
    requires Step(s, a, maxLag) == Some(t) && !s.phase.Absent?
    ensures !t.phase.Absent? && t.cursor == s.cursor
  {
    if ProducerStep(s, a, maxLag).Some? {
      ProducerAside(s, a, t, maxLag);
    } else {
      ReaderAttached(s, a, t);
    }
  }

  lemma ReaderAttached(s: State, a: Action, t: State)
    requires ReaderStep(s, a) == Some(t) && !s.phase.Absent?
    ensures !t.phase.Absent? && t.cursor == s.cursor
  {
    if a.First? || a.Locate? || a.OpenTail? || a.TailEntry? || a.Acknowledge? {
      OpeningAttached(s, a, t);
    } else {
      ClosingAttached(s, a, t);
    }
  }

  lemma OpeningAttached(s: State, a: Action, t: State)
    requires ReaderStep(s, a) == Some(t) && !s.phase.Absent?
    requires a.First? || a.Locate? || a.OpenTail? || a.TailEntry? || a.Acknowledge?
    ensures !t.phase.Absent? && t.cursor == s.cursor
  {
  }

  lemma ClosingAttached(s: State, a: Action, t: State)
    requires ReaderStep(s, a) == Some(t) && !s.phase.Absent?
    requires !(a.First? || a.Locate? || a.OpenTail? || a.TailEntry? || a.Acknowledge?)
    ensures !t.phase.Absent? && t.cursor == s.cursor
  {
  }

  lemma ProducerAside(s: State, a: Action, t: State, maxLag: int)
    requires ProducerStep(s, a, maxLag) == Some(t)
    ensures t.phase == s.phase && t.cursor == s.cursor
  {
  }

  lemma {:induction false} AttachedRun(s: State, acts: seq<Action>, t: State, maxLag: int)
    requires Trace(s, acts, t, maxLag) && !s.phase.Absent?
    ensures !t.phase.Absent? && t.cursor == s.cursor && (Inv(s) ==> Inv(t))
    decreases |acts|
  {
    if acts != [] {
      var next := Step(s, acts[0], maxLag).value;
      StepAttached(s, acts[0], next, maxLag);
      if Inv(s) { StepKeeps(s, acts[0], next, maxLag); }
      AttachedRun(next, acts[1..], t, maxLag);
    }
  }

  lemma {:induction false} AbsentRun(s: State, acts: seq<Action>, t: State, maxLag: int)
    requires Trace(s, acts, t, maxLag) && Inv(s) && t.phase.Absent?
    ensures Inv(t)
    decreases |acts|
  {
    if acts != [] {
      var next := Step(s, acts[0], maxLag).value;
      if !next.phase.Absent? {
        AttachedRun(next, acts[1..], t, maxLag);
      } else {
        StepKeeps(s, acts[0], next, maxLag);
        AbsentRun(next, acts[1..], t, maxLag);
      }
    }
  }

  /** A resumed reader that finds the entry named by its cursor already
      broadcast, or that gets no subscription, is sent exactly the entries after
      its cursor, in order, and none after an unsequenced frame; and a relay
      that it drains has left out no committed entry. */
  lemma ResumedReaderExact(s: State, cursor: nat, acts: seq<Action>, t: State, maxLag: int)
    requires Reachable(s, maxLag) && s.phase.Absent? && (cursor <= s.pub || s.active || s.closed)
    requires Trace(Resumed(s, cursor), acts, t, maxLag)
    ensures Exact(t.out, cursor, t.seen) && (t.phase.Drained? ==> t.seen == t.last)
  {
    var before :| Trace(Init(), before, s, maxLag);
    AbsentRun(Init(), before, s, maxLag);
    StepKeeps(s, Resume(cursor), Resumed(s, cursor), maxLag);
    AttachedRun(Resumed(s, cursor), acts, t, maxLag);
  }

  /** The initial reader is sent 1, 2, 3, ... in order. */
  lemma InitialReaderExact(s: State, acts: seq<Action>, t: State, maxLag: int)
    requires Reachable(s, maxLag) && Step(s, Start, maxLag).Some?
    requires Trace(Step(s, Start, maxLag).value, acts, t, maxLag)
    ensures Exact(t.out, 0, t.seen) && (t.phase.Drained? ==> t.seen == t.last)
  {
    var before :| Trace(Init(), before, s, maxLag);
    AbsentRun(Init(), before, s, maxLag);
    var first := Step(s, Start, maxLag).value;
    StepKeeps(s, Start, first, maxLag);
    AttachedRun(first, acts, t, maxLag);
  }

  lemma Prepend(s: State, a: Action, next: State, acts: seq<Action>, t: State, maxLag: int)
    requires Step(s, a, maxLag) == Some(next) && Trace(next, acts, t, maxLag)
    ensures Trace(s, [a] + acts, t, maxLag)
  {
    assert ([a] + acts)[1..] == acts;
  }
}
