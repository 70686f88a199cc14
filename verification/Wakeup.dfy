/** A drain migration that waits for a backend: no wake-up is lost. The waiter
    takes the change channel, sets the quarantine timer, tries to acquire and
    then blocks, while pool operations and the clock move between its steps. */
module Wakeup {
  import opened Options
  import opened Pool
  import opened Routes
  import Drain

  /** What selection can see of one backend. */
  datatype View = View(model: nat, health: Health, draining: bool, quarantinedUntil: int)

  ghost function Shown(heap: seq<Record>, records: map<Id, Ref>): map<Id, View> {
    map id | id in records && records[id] < |heap| && !heap[records[id]].retired ::
      var r := heap[records[id]]; View(r.backend.model, r.health, r.draining, r.quarantinedUntil)
  }

  ghost function Visible(p: Pool): map<Id, View> { Shown(p.heap, p.records) }

  /** A change that selection can see closes the channel. */
  ghost predicate Told(p: Pool, q: Pool) {
    Linked(p) && Linked(q) && ToldIn(p.epoch, Visible(p), q.epoch, Visible(q))
  }

  ghost predicate ToldIn(before: nat, seen: map<Id, View>, after: nat, shown: map<Id, View>) {
    before <= after && (before == after ==> seen == shown)
  }

  lemma {:induction false} AdmittedAllEpoch(p: Pool, bs: seq<Backend>, admitNew: bool)
    requires Linked(p)
    ensures AdmittedAll(p, bs, admitNew).epoch == p.epoch + |bs|
    decreases |bs|
  {
    if bs != [] {
      AdmittedLinked(p, bs[0], admitNew);
      AdmittedAllEpoch(Admitted(p, bs[0], admitNew), bs[1..], admitNew);
    }
  }

  lemma ReplacedTold(p: Pool, bs: seq<Backend>, admitNew: bool)
    requires Linked(p)
    ensures Told(p, Replaced(p, bs, admitNew))
  {
    if Distinct(bs) {
      AdmittedAllEpoch(p, bs, admitNew);
      AdmittedAllLinked(p, bs, admitNew);
      var q := AdmittedAll(p, bs, admitNew);
      if Stale(q, Ids(bs)) == {} { RetiredNone(q); }
    }
  }

  lemma CleanedShown(heap: seq<Record>, records: map<Id, Ref>, ref: Ref)
    requires LinkedIn(heap, records) && ref < |heap|
    ensures var cleaned := CleanedRecords(heap, records, ref);
      LinkedIn(heap, cleaned) && Shown(heap, cleaned) == Shown(heap, records)
  {
  }

  predicate Alike(r: Record, t: Record) {
    r.health == t.health && r.draining == t.draining && r.quarantinedUntil == t.quarantinedUntil
  }

  /** A record changed in place, with a notification unless selection sees no change. */
  lemma PutShown(heap: seq<Record>, records: map<Id, Ref>, ref: Ref, r: Record)
    requires LinkedIn(heap, records) && ref < |heap|
    requires r.backend == heap[ref].backend && r.retired == heap[ref].retired
    ensures LinkedIn(heap[ref := r], records)
    ensures Alike(r, heap[ref]) ==> Shown(heap[ref := r], records) == Shown(heap, records)
  {
  }

  lemma PutTold(p: Pool, ref: Ref, r: Record, signal: bool)
    requires Linked(p) && ref < |p.heap| && r.backend == p.heap[ref].backend && r.retired == p.heap[ref].retired
    requires signal || Alike(r, p.heap[ref])
    ensures Told(p, SignalledIf(Put(p, ref, r), signal))
  {
    PutShown(p.heap, p.records, ref, r);
  }

  lemma RemoveTold(p: Pool, id: Id)
    requires Linked(p)
    ensures Told(p, RemoveNext(p, id))
  {
    if Known(p, id) { RetiredTold(p, p.records[id], Retired(Of(p, id))); }
  }

  lemma RetiredTold(p: Pool, ref: Ref, r: Record)
    requires Linked(p) && ref < |p.heap| && r.backend == p.heap[ref].backend
    ensures Told(p, Cleaned(Signalled(Put(p, ref, r)), ref))
  {
    var heap := p.heap[ref := r];
    assert LinkedIn(heap, p.records);
    CleanedShown(heap, p.records, ref);
  }

  lemma UpsertTold(p: Pool, b: Backend)
    requires Linked(p)
    ensures Told(p, Admitted(p, b, false))
  {
    AdmittedLinked(p, b, false);
  }

  lemma AcquireTold(p: Pool, id: Id, now: int)
    requires Linked(p)
    ensures Told(p, AcquireNext(p, id, now))
  {
    if id in p.records {
      PutShown(p.heap, p.records, p.records[id], Of(p, id).(leases := Of(p, id).leases + {p.nextLease + 1}));
    }
  }

  lemma PutCleanedShown(heap: seq<Record>, records: map<Id, Ref>, ref: Ref, r: Record)
    requires LinkedIn(heap, records) && ref < |heap| && Alike(r, heap[ref])
    requires r.backend == heap[ref].backend && r.retired == heap[ref].retired
    ensures var put := heap[ref := r];
      var cleaned := CleanedRecords(put, records, ref);
      LinkedIn(put, cleaned) && Shown(put, cleaned) == Shown(heap, records)
  {
    PutShown(heap, records, ref, r);
    CleanedShown(heap[ref := r], records, ref);
  }

  lemma ReleaseTold(p: Pool, ref: Ref, lease: nat)
    requires Linked(p)
    ensures Told(p, ReleaseNext(p, ref, lease))
  {
    if ref < |p.heap| {
      PutCleanedShown(p.heap, p.records, ref, p.heap[ref].(leases := p.heap[ref].leases - {lease}));
    }
  }

  lemma DrainTold(p: Pool, id: Id, pin: nat)
    requires Linked(p)
    ensures Told(p, DrainNext(p, id, pin))
  {
    if id in p.records {
      var r := Of(p, id);
      PutShown(p.heap, p.records, p.records[id],
               r.(draining := true, retirementDrain := false, waiters := r.waiters + 1));
    }
  }

  lemma WaitTold(p: Pool, id: Id, pin: nat)
    requires Linked(p)
    ensures Told(p, WaitNext(p, id, pin))
  {
    if id in p.records {
      PutShown(p.heap, p.records, p.records[id], Of(p, id).(waiters := Of(p, id).waiters + 1));
    }
  }

  lemma CloseTold(p: Pool, pin: nat)
    requires WellFormed(p)
    ensures Told(p, CloseNext(p, pin))
  {
    if pin in p.pins {
      var ref := p.pins[pin];
      PutCleanedShown(p.heap, p.records, ref, p.heap[ref].(waiters := p.heap[ref].waiters - 1));
    }
  }

  /** A change of flags that selection can see is signalled. */
  lemma FlagsSeen(r: Record, op: Op)
    requires SetsFlags(op)
    ensures var (t, signal) := FlagsSet(r, op);
      t.backend == r.backend && t.retired == r.retired && (signal || Alike(t, r))
  {
  }

  lemma FlagTold(p: Pool, op: Op)
    requires Linked(p) && SetsFlags(op)
    ensures Told(p, FlagNext(p, op))
  {
    if Known(p, op.id) {
      var r := Of(p, op.id);
      FlagsSeen(r, op);
      PutTold(p, p.records[op.id], FlagsSet(r, op).0, FlagsSet(r, op).1);
    }
  }

  /** Every operation tells the waiters of whatever selection can see. */
  lemma NextTold(p: Pool, op: Op)
    requires WellFormed(p)
    ensures Told(p, Next(p, op))
  {
    if SetsFlags(op) {
      FlagTold(p, op);
    } else {
      match op {
        case Upsert(b) => UpsertTold(p, b);
        case Replace(bs, admitNew) => ReplacedTold(p, bs, admitNew);
        case Remove(id) => RemoveTold(p, id);
        case Acquire(id, now) => AcquireTold(p, id, now);
        case Release(ref, lease) => ReleaseTold(p, ref, lease);
        case BeginDrain(id, pin) => DrainTold(p, id, pin);
        case BeginWait(id, pin) => WaitTold(p, id, pin);
        case Close(pin) => CloseTold(p, pin);
      }
    }
  }

  /** Selectable for the model as soon as its quarantine is over. */
  predicate Able(id: Id, v: View, model: nat, excluded: set<Id>) {
    v.health == Healthy && !v.draining && (v.model == 0 || v.model == model) && id !in excluded
  }

  /** The earliest end of a quarantine after `now`, if there is any. */
  ghost predicate IsEarliest(seen: map<Id, View>, model: nat, excluded: set<Id>, now: int, t: Option<int>) {
    && (forall id | id in seen && Able(id, seen[id], model, excluded) && now < seen[id].quarantinedUntil ::
          t.Some? && t.value <= seen[id].quarantinedUntil)
    && (t.Some? ==> exists id | id in seen ::
          Able(id, seen[id], model, excluded) && now < seen[id].quarantinedUntil == t.value)
  }

  method NextQuarantineExpiry(p: Pool, model: nat, excluded: set<Id>, now: int) returns (t: Option<int>)
    requires Linked(p)
    ensures IsEarliest(Visible(p), model, excluded, now, t)
  {
    t := None;
    var left := p.records.Keys;
    ghost var seen := Visible(p);
    while left != {}
      invariant left <= p.records.Keys
      invariant forall id | id in seen && id !in left && Able(id, seen[id], model, excluded)
                            && now < seen[id].quarantinedUntil :: t.Some? && t.value <= seen[id].quarantinedUntil
      invariant t.Some? ==> exists id | id in seen ::
        Able(id, seen[id], model, excluded) && now < seen[id].quarantinedUntil == t.value
      decreases left
    {
      var id :| id in left;
      left := left - {id};
      var r := p.heap[p.records[id]];
      if r.retired || r.health != Healthy || r.draining || !Serves(r.backend, model) { continue; }
      if id in excluded || now >= r.quarantinedUntil { continue; }
      if t.None? || r.quarantinedUntil < t.value {
        assert Able(id, seen[id], model, excluded);
        t := Some(r.quarantinedUntil);
      }
    }
  }

  /** What a waiter holds on to: the epoch of its channel, the clock reading its
      timer was computed from, the time at which it was started, and when it is due. */
  datatype Watch = Watch(epoch: nat, read: int, started: int, due: Option<int>)

  datatype Phase =
    | Start
    | Listening(epoch: nat)
    | Measured(epoch: nat, read: int, earliest: Option<int>)
    | Asking(watch: Watch)
    | Looking(watch: Watch, clock: int, attempt: nat)
    | Chosen(watch: Watch, clock: int, attempt: nat, id: Id)
    | Blocking(watch: Watch)
    | Leased

  /** `next` is what the registry's lock protects while an update that has
      replaced the pool's backends is not recorded yet. */
  datatype State = State(pool: Pool, routes: Routes, next: Option<Routes>, now: int, phase: Phase)

  datatype Action =
    | Operate(op: Op) | Tick(to: int) | Apply(bs: seq<Backend>, routes: Routes) | Record
    | Listen | Measure(clock: int, earliest: Option<int>) | StartTimer | Ask
    | Look(clock: int, choice: Option<Id>) | Recheck(clock: int) | Wake

  ghost predicate Ready(p: Pool, id: Id, model: nat, excluded: set<Id>, now: int) {
    id in Visible(p) && Able(id, Visible(p)[id], model, excluded) && now >= Visible(p)[id].quarantinedUntil
  }

  const MAX_ATTEMPTS: nat := 64

  /** A timer runs from the time at which it is started. The registry answers
      only between updates, and refuses a deleted model. A choice is one of the
      candidates, and there is none exactly if no backend is ready; the chosen
      one is checked again under the pool's lock. */
  ghost predicate Step(s: State, a: Action, t: State, model: nat, excluded: set<Id>) {
    match a
    case Operate(op) => WellFormed(s.pool) && t == s.(pool := Next(s.pool, op))
    case Tick(to) => s.now <= to && t == s.(now := to)
    case Apply(bs, routes) =>
      && WellFormed(s.pool) && s.next.None? && Distinct(bs)
      && t == s.(pool := Next(s.pool, Replace(bs, true)), next := Some(routes))
    case Record => s.next.Some? && t == s.(routes := s.next.value, next := None)
    case Listen => s.phase.Start? && t == s.(phase := Listening(s.pool.epoch))
    case Measure(clock, earliest) =>
      && s.phase.Listening? && clock <= s.now && IsEarliest(Visible(s.pool), model, excluded, clock, earliest)
      && t == s.(phase := Measured(s.phase.epoch, clock, earliest))
    case StartTimer =>
      && s.phase.Measured?
      && var due := if s.phase.earliest.Some? then Some(s.now + (s.phase.earliest.value - s.phase.read)) else None;
         t == s.(phase := Asking(Watch(s.phase.epoch, s.phase.read, s.now, due)))
    case Ask =>
      && s.phase.Asking? && s.next.None?
      && t == s.(phase := if Refuses(s.routes, model) then Blocking(s.phase.watch)
                          else Looking(s.phase.watch, s.phase.watch.started, 0))
    case Look(clock, choice) =>
      && s.phase.Looking? && s.phase.clock <= clock <= s.now
      && if choice.Some?
         then && Ready(s.pool, choice.value, model, excluded, clock)
              && t == s.(phase := Chosen(s.phase.watch, clock, s.phase.attempt, choice.value))
         else && (forall id :: !Ready(s.pool, id, model, excluded, clock))
              && t == s.(phase := Blocking(s.phase.watch))
    case Recheck(clock) =>
      && s.phase.Chosen? && s.phase.clock <= clock <= s.now
      && t == s.(phase := if Ready(s.pool, s.phase.id, model, excluded, clock) then Leased
                          else if s.phase.attempt + 1 == MAX_ATTEMPTS then Blocking(s.phase.watch)
                          else Looking(s.phase.watch, clock, s.phase.attempt + 1))
    case Wake => s.phase.Blocking? && t == s.(phase := Start)
  }

  /** Every backend in quarantine at the clock reading leaves it no earlier than
      `earliest`. */
  ghost predicate Covered(seen: map<Id, View>, model: nat, excluded: set<Id>, read: int, earliest: Option<int>) {
    forall id | id in seen && Able(id, seen[id], model, excluded) && read < seen[id].quarantinedUntil ::
      earliest.Some? && earliest.value <= seen[id].quarantinedUntil
  }

  /** The quarantine end that a running timer stands for. */
  function Target(w: Watch): Option<int> {
    if w.due.Some? then Some(w.due.value - (w.started - w.read)) else None
  }

  /** No backend that the model could have was free when the clock was read. */
  ghost predicate NoneFree(seen: map<Id, View>, model: nat, excluded: set<Id>, read: int) {
    forall id | id in seen && Able(id, seen[id], model, excluded) :: read < seen[id].quarantinedUntil
  }

  /** The waiter's channel is still open, so selection sees what it saw. */
  ghost predicate Watching(s: State, w: Watch, model: nat, excluded: set<Id>) {
    && w.epoch <= s.pool.epoch && w.read <= w.started <= s.now
    && (w.epoch == s.pool.epoch ==> Covered(Visible(s.pool), model, excluded, w.read, Target(w)))
  }

  /** A waiter blocks because nothing was free or because the model is refused;
      an update that ends the refusal closes the channel unless the pool is empty. */
  ghost predicate Stays(s: State, w: Watch, model: nat, excluded: set<Id>) {
    w.epoch == s.pool.epoch ==>
      || NoneFree(Visible(s.pool), model, excluded, w.read)
      || Visible(s.pool) == map[]
      || (s.next.None? && Refuses(s.routes, model))
  }

  ghost predicate Waiting(s: State, model: nat, excluded: set<Id>) {
    match s.phase
    case Start | Leased => true
    case Listening(e) => e <= s.pool.epoch
    case Measured(e, read, earliest) =>
      && e <= s.pool.epoch && read <= s.now
      && (e == s.pool.epoch ==> Covered(Visible(s.pool), model, excluded, read, earliest))
    case Asking(w) => Watching(s, w, model, excluded)
    case Looking(w, clock, attempt) =>
      Watching(s, w, model, excluded) && w.read <= clock && (w.epoch == s.pool.epoch ==> attempt == 0)
    case Chosen(w, clock, attempt, id) =>
      && Watching(s, w, model, excluded) && w.read <= clock
      && (w.epoch == s.pool.epoch ==> Ready(s.pool, id, model, excluded, clock))
    case Blocking(w) => Watching(s, w, model, excluded) && Stays(s, w, model, excluded)
  }

  ghost predicate Inv(s: State, model: nat, excluded: set<Id>) {
    Drain.Inv(s.pool) && Waiting(s, model, excluded)
  }

  /** While the channel is open a pool operation changes nothing the waiter knows. */
  lemma OperateKeeps(s: State, op: Op, model: nat, excluded: set<Id>)
    requires Inv(s, model, excluded)
    ensures Inv(s.(pool := Next(s.pool, op)), model, excluded)
  {
    NextTold(s.pool, op);
    Drain.NextKeeps(s.pool, op, 0, 0, 0, {});
    SeenSame(s, Next(s.pool, op), model, excluded);
  }

  lemma SeenSame(s: State, q: Pool, model: nat, excluded: set<Id>)
    requires Waiting(s, model, excluded) && Told(s.pool, q)
    ensures Waiting(s.(pool := q), model, excluded)
  {
  }

  /** A replacement that notifies nobody finds and leaves the pool empty. */
  lemma SilentReplace(p: Pool, bs: seq<Backend>)
    requires Linked(p) && Distinct(bs)
    ensures Replaced(p, bs, true).epoch == p.epoch ==> Visible(p) == map[]
  {
    AdmittedAllEpoch(p, bs, true);
    AdmittedAllLinked(p, bs, true);
    if bs == [] { SilentStale(p); }
  }

  lemma SilentStale(p: Pool)
    requires Linked(p)
    ensures |Stale(p, {})| == 0 ==> Visible(p) == map[]
    ensures Ids([]) == {}
  {
    if |Stale(p, {})| == 0 {
      assert Stale(p, {}) == {};
      forall id | id in p.records ensures p.heap[p.records[id]].retired { assert id !in Stale(p, {}); }
    }
  }

  lemma ApplyKeeps(s: State, bs: seq<Backend>, routes: Routes, model: nat, excluded: set<Id>)
    requires Inv(s, model, excluded) && Distinct(bs)
    ensures Inv(s.(pool := Next(s.pool, Replace(bs, true)), next := Some(routes)), model, excluded)
  {
    OperateKeeps(s, Replace(bs, true), model, excluded);
    SilentReplace(s.pool, bs);
    NextTold(s.pool, Replace(bs, true));
  }

  lemma RecordKeeps(s: State, model: nat, excluded: set<Id>)
    requires Inv(s, model, excluded) && s.next.Some?
    ensures Inv(s.(routes := s.next.value, next := None), model, excluded)
  {
  }

  lemma PrepareKeeps(s: State, a: Action, t: State, model: nat, excluded: set<Id>)
    requires Inv(s, model, excluded) && Step(s, a, t, model, excluded)
    requires a.Tick? || a.Listen? || a.Measure? || a.StartTimer? || a.Ask? || a.Wake?
    ensures Inv(t, model, excluded)
  {
  }

  lemma LookKeeps(s: State, a: Action, t: State, model: nat, excluded: set<Id>)
    requires Inv(s, model, excluded) && Step(s, a, t, model, excluded) && a.Look?
    ensures Inv(t, model, excluded)
  {
    if a.choice.None? {
      var seen := Visible(s.pool);
      forall id | id in seen && Able(id, seen[id], model, excluded)
        ensures s.phase.watch.read < seen[id].quarantinedUntil
      {
        assert !Ready(s.pool, id, model, excluded, a.clock);
      }
    }
  }

  /** A race can only be lost to a change that closed the channel. */
  lemma RecheckKeeps(s: State, a: Action, t: State, model: nat, excluded: set<Id>)
    requires Inv(s, model, excluded) && Step(s, a, t, model, excluded) && a.Recheck?
    ensures Inv(t, model, excluded)
  {
  }

  lemma StepKeeps(s: State, a: Action, t: State, model: nat, excluded: set<Id>)
    requires Inv(s, model, excluded) && Step(s, a, t, model, excluded)
    ensures Inv(t, model, excluded)
  {
    match a
    case Operate(op) => OperateKeeps(s, op, model, excluded);
    case Apply(bs, routes) => ApplyKeeps(s, bs, routes, model, excluded);
    case Record => RecordKeeps(s, model, excluded);
    case Look(_, _) => LookKeeps(s, a, t, model, excluded);
    case Recheck(_) => RecheckKeeps(s, a, t, model, excluded);
    case Tick(_) | Listen | Measure(_, _) | StartTimer | Ask | Wake => PrepareKeeps(s, a, t, model, excluded);
  }

  ghost predicate Run(s: State, acts: seq<Action>, t: State, model: nat, excluded: set<Id>)
    decreases |acts|
  {
    if acts == [] then s == t
    else exists next :: Step(s, acts[0], next, model, excluded) && Run(next, acts[1..], t, model, excluded)
  }

  lemma {:induction false} RunKeeps(s: State, acts: seq<Action>, t: State, model: nat, excluded: set<Id>)
    requires Inv(s, model, excluded) && Run(s, acts, t, model, excluded)
    ensures Inv(t, model, excluded)
    decreases |acts|
  {
    if acts != [] {
      var next :| Step(s, acts[0], next, model, excluded) && Run(next, acts[1..], t, model, excluded);
      StepKeeps(s, acts[0], next, model, excluded);
      RunKeeps(next, acts[1..], t, model, excluded);
    }
  }

  lemma BlockedTold(t: State, w: Watch, model: nat, excluded: set<Id>, id: Id)
    requires Watching(t, w, model, excluded) && Stays(t, w, model, excluded)
    requires Ready(t.pool, id, model, excluded, t.now)
    ensures || w.epoch < t.pool.epoch
            || (w.due.Some? && w.due.value <= Visible(t.pool)[id].quarantinedUntil + (w.started - w.read))
            || (t.next.None? && Refuses(t.routes, model))
  {
  }

  /** Whenever the waiter is about to block, or is blocked, and some backend is
      ready for its model: its channel has been closed; or its timer is due no
      later than the end of that backend's quarantine plus the time between the
      clock reading and the timer's start; or the registry refuses the model as
      deleted. This includes the waiter that gave up after losing 64 races. */
  lemma NoLostWakeup(s: State, acts: seq<Action>, t: State, model: nat, excluded: set<Id>, id: Id)
    requires s == State(Drain.Empty(), map[], None, s.now, Start) && Run(s, acts, t, model, excluded)
    requires t.phase.Blocking? && Ready(t.pool, id, model, excluded, t.now)
    ensures var w := t.phase.watch;
      || w.epoch < t.pool.epoch
      || (w.due.Some? && w.due.value <= Visible(t.pool)[id].quarantinedUntil + (w.started - w.read))
      || (t.next.None? && Refuses(t.routes, model))
  {
    RunKeeps(s, acts, t, model, excluded);
    BlockedTold(t, t.phase.watch, model, excluded, id);
  }
}
