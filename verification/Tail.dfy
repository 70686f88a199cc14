/** One tail reader of the memory journal, against every interleaving of
    commits, trims, removals, cancellations and its own steps. Each action is one
    section under the journal's lock, or one send on the reader's channel. */
module Tail {
  import opened Options
  import opened MemoryStreams

  datatype Point = Top | Sending | Sent | Waiting | Finished

  /** `sizes` is the history of the stream: entry n has size sizes[n - 1]. */
  datatype Reader = Reader(fromSeq: nat, cursor: nat, liveAfter: nat, liveLag: int, inFlightSeq: nat, inFlightSize: nat,
                           stopped: bool, ended: bool, point: Point, channel: seq<nat>)

  datatype State = State(sizes: seq<nat>, stream: Stream, reader: Option<Reader>)

  datatype Action =
    | Commit(size: nat, trim: nat, final: bool) | Degrade | Remove
    | Attach(fromSeq: nat) | Pick | Send | GiveUp | Book | Wake | Cancel

  function Init(size: nat): State {
    State([size], Stream([Stored(1, size)], size, 1, 1, false, false, 0, 1), None)
  }

  function Stop(r: Reader, ended: bool): Reader {
    if r.stopped then r else r.(stopped := true, ended := ended)
  }

  /** A commit stops a reader that the ring has passed, counts the entry as lag
      of one that still reads, and stops that one if its lag is too much. */
  function Published(r: Reader, earliest: nat, size: nat, maxLag: int): Reader {
    var effective := if r.inFlightSeq > r.cursor then r.inFlightSeq else r.cursor;
    if r.stopped then r
    else if earliest > 1 && effective < earliest - 1 then Stop(r, false)
    else
      var t := r.(liveLag := r.liveLag + size);
      if t.liveLag - t.inFlightSize > maxLag then Stop(t, false) else t
  }

  predicate Behind(r: Reader, s: Stream) { s.earliest > 1 && r.cursor < s.earliest - 1 }

  predicate Missing(r: Reader, s: Stream) {
    r.cursor + 1 < s.earliest || r.cursor + 1 - s.earliest >= |s.entries|
  }

  function Picked(r: Reader, s: Stream): Reader {
    if r.stopped then r.(point := Finished)
    else if Behind(r, s) then Stop(r, false).(point := Finished)
    else if r.cursor < s.last then
      if Missing(r, s) then Stop(r, false).(point := Finished)
      else
        var stored := s.entries[r.cursor + 1 - s.earliest];
        r.(inFlightSeq := stored.at, inFlightSize := stored.size, point := Sending)
    else if s.terminal then Stop(r, true).(point := Finished)
    else if s.degraded then Stop(r, false).(point := Finished)
    else r.(point := Waiting)
  }

  function Booked(r: Reader, s: Stream): Reader {
    if r.stopped then r.(point := Finished)
    else
      var seq' := r.inFlightSeq;
      var lag := if seq' > r.liveAfter then r.liveLag - r.inFlightSize else r.liveLag;
      var t := r.(cursor := seq', liveLag := if lag < 0 then 0 else lag, inFlightSeq := 0, inFlightSize := 0);
      if s.terminal && seq' == s.last then Stop(t, true).(point := Finished) else t.(point := Top)
  }

  function Step(s: State, a: Action, maxLag: int): Option<State> {
    match a
    case Commit(size, trim, final) =>
      if !s.stream.terminal && !s.stream.degraded && size > 0 && trim <= |s.stream.entries|
      then var t := Appended(s.stream, trim, size).(terminal := final);
           Some(State(s.sizes + [size], t,
                      if s.reader.Some? then Some(Published(s.reader.value, t.earliest, size, maxLag)) else None))
      else None
    case Degrade => if !s.stream.terminal then Some(s.(stream := s.stream.(degraded := true))) else None
    case Remove =>
      if s.stream.terminal || s.stream.degraded
      then Some(s.(stream := s.stream.(entries := [], bytes := 0),
                   reader := if s.reader.Some? then Some(Stop(s.reader.value, false)) else None))
      else None
    case Attach(fromSeq) =>
      if s.reader.None? && s.stream.entries != [] && s.stream.earliest <= fromSeq + 1 && fromSeq <= s.stream.last
         && !(s.stream.degraded && fromSeq == s.stream.last)
      then Some(s.(reader := Some(Reader(fromSeq, fromSeq, s.stream.last, 0, 0, 0, false, false, Top, [])))) else None
    case _ =>
      if s.reader.None? then None
      else
        var r := ReaderStep(s.reader.value, s.stream, a);
        if r.Some? then Some(s.(reader := r)) else None
  }

  function ReaderStep(r: Reader, s: Stream, a: Action): Option<Reader> {
    match a
    case Pick => if r.point.Top? then Some(Picked(r, s)) else None
    // The send can win even after the reader was stopped.
    case Send => if r.point.Sending? then Some(r.(channel := r.channel + [r.inFlightSeq], point := Sent)) else None
    case GiveUp =>
      if (r.point.Sending? || r.point.Waiting?) && r.stopped then Some(r.(point := Finished)) else None
    case Book => if r.point.Sent? then Some(Booked(r, s)) else None
    case Wake => if r.point.Waiting? then Some(r.(point := Top)) else None
    case Cancel => Some(Stop(r, false))
    case _ => None
  }

  ghost predicate Trace(s: State, acts: seq<Action>, t: State, maxLag: int)
    decreases |acts|
  {
    if acts == [] then s == t
    else Step(s, acts[0], maxLag).Some? && Trace(Step(s, acts[0], maxLag).value, acts[1..], t, maxLag)
  }

  /** The bytes of entries n + 1, n + 2, ... */
  function After(sizes: seq<nat>, n: nat): nat
    decreases |sizes| - n
  {
    if n >= |sizes| then 0 else sizes[n] + After(sizes, n + 1)
  }

  lemma {:induction false} AfterPushed(sizes: seq<nat>, size: nat, n: nat)
    ensures After(sizes + [size], n) == After(sizes, n) + if n <= |sizes| then size else 0
    decreases |sizes| - n
  {
    if n < |sizes| { AfterPushed(sizes, size, n + 1); }
  }

  /** Entries fromSeq + 1, fromSeq + 2, ... without a gap or a repeat. */
  predicate InOrder(channel: seq<nat>, fromSeq: nat) {
    forall i | 0 <= i < |channel| :: channel[i] == fromSeq + 1 + i
  }

  predicate Ringed(s: State) {
    var st := s.stream;
    && st.last == |s.sizes|
    && (st.entries != [] ==>
          && st.earliest >= 1 && st.last == st.earliest + |st.entries| - 1
          && forall i | 0 <= i < |st.entries| ::
               st.entries[i] == Stored(st.earliest + i, s.sizes[st.earliest + i - 1]))
    && (st.entries == [] ==> (st.terminal || st.degraded) && (s.reader.Some? ==> s.reader.value.stopped))
  }

  /** The lag is what was committed after the reader attached and it has not booked. */
  predicate Tracked(r: Reader, s: State) {
    var handed := r.point.Sending? || r.point.Sent?;
    && r.cursor <= s.stream.last == |s.sizes|
    && r.liveLag == After(s.sizes, if r.cursor < r.liveAfter then r.liveAfter else r.cursor)
    && (handed ==> r.inFlightSeq == r.cursor + 1 <= s.stream.last && r.inFlightSize == s.sizes[r.cursor])
    && (!handed ==> r.inFlightSeq == 0 && r.inFlightSize == 0)
    && s.stream.earliest <= (if handed then r.cursor + 2 else r.cursor + 1)
    && r.liveAfter <= s.stream.last
  }

  predicate Inv(s: State) {
    && Ringed(s)
    && (s.reader.Some? ==>
          var r := s.reader.value;
          && InOrder(r.channel, r.fromSeq)
          && (r.point.Sending? ==> r.inFlightSeq == r.fromSeq + |r.channel| + 1)
          && (!r.stopped ==> Tracked(r, s) && r.fromSeq + |r.channel| == r.cursor + if r.point.Sent? then 1 else 0)
          && (r.ended ==> && r.stopped && r.point.Finished? && s.stream.terminal
                          && r.fromSeq + |r.channel| == s.stream.last))
  }

  lemma CommitKeeps(s: State, a: Action, t: State, maxLag: int)
    requires Inv(s) && a.Commit? && Step(s, a, maxLag) == Some(t)
    ensures Inv(t)
  {
    CommitRinged(s, a, t, maxLag);
    if s.reader.Some? && !s.reader.value.stopped { PublishTracked(s, a, t, maxLag); }
  }

  lemma CommitRinged(s: State, a: Action, t: State, maxLag: int)
    requires Ringed(s) && a.Commit? && Step(s, a, maxLag) == Some(t)
    ensures Ringed(t)
  {
  }

  /** A reader that a commit does not stop has the entry counted as its lag, and
      was not behind the ring. */
  lemma PublishTracked(s: State, a: Action, t: State, maxLag: int)
    requires Ringed(s) && a.Commit? && Step(s, a, maxLag) == Some(t) && s.reader.Some?
    requires Tracked(s.reader.value, s) && !s.reader.value.stopped
    ensures !t.reader.value.stopped ==> Tracked(t.reader.value, t)
  {
    var r := s.reader.value;
    AfterPushed(s.sizes, a.size, if r.cursor < r.liveAfter then r.liveAfter else r.cursor);
  }

  lemma StreamKeeps(s: State, a: Action, t: State, maxLag: int)
    requires Inv(s) && (a.Degrade? || a.Remove? || a.Attach?) && Step(s, a, maxLag) == Some(t)
    ensures Inv(t)
  {
  }

  lemma ReaderKeeps(s: State, a: Action, t: State, maxLag: int)
    requires Inv(s) && s.reader.Some? && Step(s, a, maxLag) == Some(t)
    requires a.Pick? || a.Send? || a.GiveUp? || a.Book? || a.Wake? || a.Cancel?
    ensures Inv(t)
  {
  }

  lemma {:induction false} RunKeeps(s: State, acts: seq<Action>, t: State, maxLag: int)
    requires Inv(s) && Trace(s, acts, t, maxLag)
    ensures Inv(t)
    decreases |acts|
  {
    if acts != [] {
      var a, next := acts[0], Step(s, acts[0], maxLag).value;
      if a.Commit? {
        CommitKeeps(s, a, next, maxLag);
      } else if a.Degrade? || a.Remove? || a.Attach? {
        StreamKeeps(s, a, next, maxLag);
      } else {
        ReaderKeeps(s, a, next, maxLag);
      }
      RunKeeps(next, acts[1..], t, maxLag);
    }
  }

  ghost predicate Reachable(s: State, maxLag: int) {
    exists size: nat, acts :: size > 0 && Trace(Init(size), acts, s, maxLag)
  }

  /** In every run, what the reader puts on its channel is fromSeq + 1,
      fromSeq + 2, ... ; its lag is the bytes of the live entries it has not
      delivered; and if it ended with the stream, nothing is missing. */
  lemma TailExact(s: State, maxLag: int)
    requires Reachable(s, maxLag) && s.reader.Some?
    ensures var r := s.reader.value;
      && InOrder(r.channel, r.fromSeq)
      && (!r.stopped ==> r.liveLag == After(s.sizes, if r.cursor < r.liveAfter then r.liveAfter else r.cursor))
      && (r.ended ==> r.fromSeq + |r.channel| == s.stream.last)
  {
    var size: nat, acts :| size > 0 && Trace(Init(size), acts, s, maxLag);
    RunKeeps(Init(size), acts, s, maxLag);
  }

  /** A reader that still runs is never found behind the ring, the entry it
      wants is always in the ring, and the clamp of its lag never acts. */
  lemma FallbacksDead(s: State, maxLag: int)
    requires Reachable(s, maxLag) && s.reader.Some? && !s.reader.value.stopped
    ensures var r := s.reader.value;
      && (r.point.Top? ==> !Behind(r, s.stream) && (r.cursor < s.stream.last ==> !Missing(r, s.stream)))
      && (r.point.Sent? && r.inFlightSeq > r.liveAfter ==> r.liveLag - r.inFlightSize >= 0)
  {
    var size: nat, acts :| size > 0 && Trace(Init(size), acts, s, maxLag);
    RunKeeps(Init(size), acts, s, maxLag);
  }
}
