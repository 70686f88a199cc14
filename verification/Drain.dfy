/** Retained drains: what stays true of a pinned record through every run of
    pool operations. */
module Drain {
  import opened Pool

  function Pinning(pins: map<nat, Ref>, ref: Ref): set<nat> { set pin | pin in pins && pins[pin] == ref }

  /** Retirement drains only what is retired. */
  predicate Flagged(r: Record) { r.retirementDrain ==> r.draining && r.retired }

  /** Each waiter count is the number of open pins on that record. */
  ghost predicate Inv(p: Pool) {
    && WellFormed(p)
    && forall ref | 0 <= ref < |p.heap| :: p.heap[ref].waiters == |Pinning(p.pins, ref)| && Flagged(p.heap[ref])
  }

  /** The record is still drained by an administrator, takes no lease outside
      the snapshot, lost only leases that were released, and is still the one
      its identifier leads to. */
  ghost predicate Held(p: Pool, pin: nat, ref: Ref, id: Id, snapshot: set<nat>) {
    && ref < |p.heap| && pin in p.pins && p.pins[pin] == ref
    && p.heap[ref].draining && !p.heap[ref].retirementDrain
    && p.heap[ref].leases <= snapshot <= p.heap[ref].leases + p.released
    && id in p.records && p.records[id] == ref && p.heap[ref].backend.id == id
  }

  lemma PinAdded(pins: map<nat, Ref>, pin: nat, ref: Ref)
    requires pin !in pins
    ensures |Pinning(pins[pin := ref], ref)| == |Pinning(pins, ref)| + 1
    ensures forall other | other != ref :: Pinning(pins[pin := ref], other) == Pinning(pins, other)
  {
    assert Pinning(pins[pin := ref], ref) == Pinning(pins, ref) + {pin};
  }

  lemma PinRemoved(pins: map<nat, Ref>, pin: nat)
    requires pin in pins
    ensures |Pinning(pins - {pin}, pins[pin])| == |Pinning(pins, pins[pin])| - 1
    ensures forall other | other != pins[pin] :: Pinning(pins - {pin}, other) == Pinning(pins, other)
  {
    assert Pinning(pins, pins[pin]) == Pinning(pins - {pin}, pins[pin]) + {pin};
  }

  lemma PinCounted(p: Pool, pin: nat)
    requires Inv(p) && pin in p.pins
    ensures p.heap[p.pins[pin]].waiters > 0
  {
    assert pin in Pinning(p.pins, p.pins[pin]);
  }

  /** Readmission keeps identifier, leases and waiters, and an administrator's drain. */
  lemma ReadmittedAside(r: Record, b: Backend, admitNew: bool)
    requires Flagged(r)
    ensures var t := Readmitted(r, b, admitNew);
      && t.backend == b && t.leases == r.leases && t.waiters == r.waiters && Flagged(t) && !t.retired
      && t.draining == (r.draining && !r.retirementDrain) && !t.retirementDrain
  {
  }

  lemma AddedKeeps(p: Pool, r: Record, pin: nat, ref: Ref, id: Id, snapshot: set<nat>)
    requires Inv(p) && r.backend.id !in p.records && r.waiters == 0 && Flagged(r)
    ensures var q := p.(heap := p.heap + [r], records := p.records[r.backend.id := |p.heap|]);
      Inv(q) && (Held(p, pin, ref, id, snapshot) ==> Held(q, pin, ref, id, snapshot))
  {
    assert Pinning(p.pins, |p.heap|) == {};
  }

  lemma AdmittedKeeps(p: Pool, b: Backend, admitNew: bool, pin: nat, ref: Ref, id: Id, snapshot: set<nat>)
    requires Inv(p)
    ensures Inv(Admitted(p, b, admitNew))
    ensures Held(p, pin, ref, id, snapshot) ==> Held(Admitted(p, b, admitNew), pin, ref, id, snapshot)
  {
    if b.id in p.records {
      ReadmittedAside(Of(p, b.id), b, admitNew);
      PutKeeps(p, p.records[b.id], Readmitted(Of(p, b.id), b, admitNew), pin, ref, id, snapshot);
    } else {
      AddedKeeps(p, NewRecord(b, if admitNew then Healthy else Unknown), pin, ref, id, snapshot);
    }
  }

  lemma {:induction false} AdmittedAllKeeps(p: Pool, bs: seq<Backend>, admitNew: bool,
                                            pin: nat, ref: Ref, id: Id, snapshot: set<nat>)
    requires Inv(p)
    ensures Inv(AdmittedAll(p, bs, admitNew))
    ensures Held(p, pin, ref, id, snapshot) ==> Held(AdmittedAll(p, bs, admitNew), pin, ref, id, snapshot)
    decreases |bs|
  {
    if bs != [] {
      AdmittedKeeps(p, bs[0], admitNew, pin, ref, id, snapshot);
      AdmittedAllKeeps(Admitted(p, bs[0], admitNew), bs[1..], admitNew, pin, ref, id, snapshot);
    }
  }

  lemma RetiredSetKeeps(p: Pool, ids: set<Id>, pin: nat, ref: Ref, id: Id, snapshot: set<nat>)
    requires Inv(p) && ids <= p.records.Keys
    ensures Inv(RetiredSet(p, ids))
    ensures Held(p, pin, ref, id, snapshot) ==> Held(RetiredSet(p, ids), pin, ref, id, snapshot)
  {
    if Held(p, pin, ref, id, snapshot) { PinCounted(p, pin); }
  }

  /** A record replaced by one of the same identifier, leases and waiters. */
  lemma PutKeeps(p: Pool, at: Ref, r: Record, pin: nat, ref: Ref, id: Id, snapshot: set<nat>)
    requires Inv(p) && at < |p.heap| && r.backend.id == p.heap[at].backend.id && r.waiters == p.heap[at].waiters
    requires Flagged(r)
    ensures Inv(Put(p, at, r))
    ensures Held(p, pin, ref, id, snapshot)
            && (at == ref ==> r.leases == p.heap[at].leases && r.draining && !r.retirementDrain)
            ==> Held(Put(p, at, r), pin, ref, id, snapshot)
  {
  }

  lemma CleanedKeeps(p: Pool, at: Ref, pin: nat, ref: Ref, id: Id, snapshot: set<nat>)
    requires Inv(p) && at < |p.heap|
    ensures Inv(Cleaned(p, at))
    ensures Held(p, pin, ref, id, snapshot) ==> Held(Cleaned(p, at), pin, ref, id, snapshot)
  {
    if Held(p, pin, ref, id, snapshot) { PinCounted(p, pin); }
  }

  lemma RetiredOneKeeps(p: Pool, x: Id, pin: nat, ref: Ref, id: Id, snapshot: set<nat>)
    requires Inv(p) && x in p.records
    ensures Inv(RetiredOne(p, x))
    ensures Held(p, pin, ref, id, snapshot) ==> Held(RetiredOne(p, x), pin, ref, id, snapshot)
  {
    var at := p.records[x];
    PutKeeps(p, at, Retired(p.heap[at]), pin, ref, id, snapshot);
    CleanedKeeps(Signalled(Put(p, at, Retired(p.heap[at]))), at, pin, ref, id, snapshot);
  }

  lemma AcquiredKeeps(p: Pool, at: Ref, pin: nat, ref: Ref, id: Id, snapshot: set<nat>)
    requires Inv(p) && at < |p.heap| && !p.heap[at].draining
    ensures Inv(Acquired(p, at))
    ensures Held(p, pin, ref, id, snapshot) ==> Held(Acquired(p, at), pin, ref, id, snapshot)
  {
    var r := p.heap[at].(leases := p.heap[at].leases + {p.nextLease + 1});
    PutKeeps(p, at, r, pin, ref, id, snapshot);
  }

  lemma ReleasedKeeps(p: Pool, at: Ref, lease: nat, pin: nat, ref: Ref, id: Id, snapshot: set<nat>)
    requires Inv(p) && at < |p.heap|
    ensures Inv(Released(p, at, lease))
    ensures Held(p, pin, ref, id, snapshot) ==> Held(Released(p, at, lease), pin, ref, id, snapshot)
  {
    if lease !in p.released && lease in p.heap[at].leases {
      var q := Put(p, at, p.heap[at].(leases := p.heap[at].leases - {lease})).(released := p.released + {lease});
      CleanedKeeps(q, at, pin, ref, id, snapshot);
    }
  }

  /** Flags keep identifier, leases and waiters, and only `Undrain` ends a drain. */
  lemma FlagsAside(r: Record, op: Op)
    requires SetsFlags(op) && Flagged(r)
    ensures var t := FlagsSet(r, op).0;
      && t.backend == r.backend && t.leases == r.leases && t.waiters == r.waiters && Flagged(t)
      && (r.draining && !r.retirementDrain && !op.Undrain? ==> t.draining && !t.retirementDrain)
  {
  }

  lemma FlagKeeps(p: Pool, op: Op, pin: nat, ref: Ref, id: Id, snapshot: set<nat>)
    requires Inv(p) && SetsFlags(op)
    ensures Inv(FlagNext(p, op))
    ensures Held(p, pin, ref, id, snapshot) && op != Undrain(id) ==> Held(FlagNext(p, op), pin, ref, id, snapshot)
  {
    if Known(p, op.id) {
      FlagsAside(Of(p, op.id), op);
      PutKeeps(p, p.records[op.id], FlagsSet(Of(p, op.id), op).0, pin, ref, id, snapshot);
    }
  }

  lemma PinnedKeeps(p: Pool, at: Ref, r: Record, k: nat, pin: nat, ref: Ref, id: Id, snapshot: set<nat>)
    requires Inv(p) && at < |p.heap| && k !in p.pins && r.waiters == p.heap[at].waiters + 1
    requires r.backend == p.heap[at].backend && r.leases == p.heap[at].leases && r.draining
    requires (!p.heap[at].retirementDrain ==> !r.retirementDrain) && Flagged(r)
    ensures Inv(Put(p, at, r).(pins := p.pins[k := at]))
    ensures Held(p, pin, ref, id, snapshot) ==> Held(Put(p, at, r).(pins := p.pins[k := at]), pin, ref, id, snapshot)
  {
    PinAdded(p.pins, k, at);
  }

  lemma UnpinnedKeeps(p: Pool, k: nat, pin: nat, ref: Ref, id: Id, snapshot: set<nat>)
    requires Inv(p) && k in p.pins
    ensures Inv(Unpinned(p, k))
    ensures Held(p, pin, ref, id, snapshot) && k != pin ==> Held(Unpinned(p, k), pin, ref, id, snapshot)
  {
    PinRemoved(p.pins, k);
    var at := p.pins[k];
    var q := Put(p, at, p.heap[at].(waiters := p.heap[at].waiters - 1)).(pins := p.pins - {k});
    CleanedKeeps(q, at, pin, ref, id, snapshot);
  }

  lemma ReplacedKeeps(p: Pool, bs: seq<Backend>, admitNew: bool, pin: nat, ref: Ref, id: Id, snapshot: set<nat>)
    requires Inv(p)
    ensures Inv(Replaced(p, bs, admitNew))
    ensures Held(p, pin, ref, id, snapshot) ==> Held(Replaced(p, bs, admitNew), pin, ref, id, snapshot)
  {
    if Distinct(bs) {
      var q := AdmittedAll(p, bs, admitNew);
      AdmittedAllKeeps(p, bs, admitNew, pin, ref, id, snapshot);
      RetiredSetKeeps(q, Stale(q, Ids(bs)), pin, ref, id, snapshot);
    }
  }

  lemma DrainedKeeps(p: Pool, at: Ref, k: nat, pin: nat, ref: Ref, id: Id, snapshot: set<nat>)
    requires Inv(p) && at < |p.heap| && k !in p.pins
    ensures Inv(Drained(p, at, k))
    ensures Held(p, pin, ref, id, snapshot) ==> Held(Drained(p, at, k), pin, ref, id, snapshot)
  {
    var r := p.heap[at];
    PinnedKeeps(p, at, r.(draining := true, retirementDrain := false, waiters := r.waiters + 1),
                k, pin, ref, id, snapshot);
  }

  lemma WaitKeeps(p: Pool, x: Id, k: nat, pin: nat, ref: Ref, id: Id, snapshot: set<nat>)
    requires Inv(p)
    ensures Inv(WaitNext(p, x, k))
    ensures Held(p, pin, ref, id, snapshot) ==> Held(WaitNext(p, x, k), pin, ref, id, snapshot)
  {
    if Known(p, x) && Of(p, x).draining && k !in p.pins {
      PinnedKeeps(p, p.records[x], Of(p, x).(waiters := Of(p, x).waiters + 1), k, pin, ref, id, snapshot);
    }
  }

  lemma RemoveKeeps(p: Pool, x: Id, pin: nat, ref: Ref, id: Id, snapshot: set<nat>)
    requires Inv(p)
    ensures Inv(RemoveNext(p, x))
    ensures Held(p, pin, ref, id, snapshot) ==> Held(RemoveNext(p, x), pin, ref, id, snapshot)
  {
    if Known(p, x) { RetiredOneKeeps(p, x, pin, ref, id, snapshot); }
  }

  lemma AcquireKeeps(p: Pool, x: Id, now: int, pin: nat, ref: Ref, id: Id, snapshot: set<nat>)
    requires Inv(p)
    ensures Inv(AcquireNext(p, x, now))
    ensures Held(p, pin, ref, id, snapshot) ==> Held(AcquireNext(p, x, now), pin, ref, id, snapshot)
  {
    if Known(p, x) && Eligible(Of(p, x), now) { AcquiredKeeps(p, p.records[x], pin, ref, id, snapshot); }
  }

  lemma ReleaseKeeps(p: Pool, at: Ref, lease: nat, pin: nat, ref: Ref, id: Id, snapshot: set<nat>)
    requires Inv(p)
    ensures Inv(ReleaseNext(p, at, lease))
    ensures Held(p, pin, ref, id, snapshot) ==> Held(ReleaseNext(p, at, lease), pin, ref, id, snapshot)
  {
    if at < |p.heap| { ReleasedKeeps(p, at, lease, pin, ref, id, snapshot); }
  }

  lemma DrainKeeps(p: Pool, x: Id, k: nat, pin: nat, ref: Ref, id: Id, snapshot: set<nat>)
    requires Inv(p)
    ensures Inv(DrainNext(p, x, k))
    ensures Held(p, pin, ref, id, snapshot) ==> Held(DrainNext(p, x, k), pin, ref, id, snapshot)
  {
    if x in p.records && k !in p.pins { DrainedKeeps(p, p.records[x], k, pin, ref, id, snapshot); }
  }

  lemma CloseKeeps(p: Pool, k: nat, pin: nat, ref: Ref, id: Id, snapshot: set<nat>)
    requires Inv(p)
    ensures Inv(CloseNext(p, k))
    ensures Held(p, pin, ref, id, snapshot) && k != pin ==> Held(CloseNext(p, k), pin, ref, id, snapshot)
  {
    if k in p.pins { UnpinnedKeeps(p, k, pin, ref, id, snapshot); }
  }

  lemma NextKeeps(p: Pool, op: Op, pin: nat, ref: Ref, id: Id, snapshot: set<nat>)
    requires Inv(p)
    ensures Inv(Next(p, op))
    ensures Held(p, pin, ref, id, snapshot) && op != Undrain(id) && op != Close(pin)
            ==> Held(Next(p, op), pin, ref, id, snapshot)
  {
    if SetsFlags(op) {
      FlagKeeps(p, op, pin, ref, id, snapshot);
    } else {
      match op {
        case Upsert(b) => AdmittedKeeps(p, b, false, pin, ref, id, snapshot);
        case Replace(bs, admitNew) => ReplacedKeeps(p, bs, admitNew, pin, ref, id, snapshot);
        case Remove(x) => RemoveKeeps(p, x, pin, ref, id, snapshot);
        case Acquire(x, now) => AcquireKeeps(p, x, now, pin, ref, id, snapshot);
        case Release(at, lease) => ReleaseKeeps(p, at, lease, pin, ref, id, snapshot);
        case BeginDrain(x, k) => DrainKeeps(p, x, k, pin, ref, id, snapshot);
        case BeginWait(x, k) => WaitKeeps(p, x, k, pin, ref, id, snapshot);
        case Close(k) => CloseKeeps(p, k, pin, ref, id, snapshot);
      }
    }
  }

  ghost predicate Run(p: Pool, ops: seq<Op>, q: Pool)
    decreases |ops|
  {
    if ops == [] then p == q else WellFormed(p) && Run(Next(p, ops[0]), ops[1..], q)
  }

  lemma {:induction false} RunKeeps(p: Pool, ops: seq<Op>, q: Pool, pin: nat, ref: Ref, id: Id, snapshot: set<nat>)
    requires Inv(p) && Run(p, ops, q)
    ensures Inv(q)
    ensures Held(p, pin, ref, id, snapshot) && Undrain(id) !in ops && Close(pin) !in ops
            ==> Held(q, pin, ref, id, snapshot)
    decreases |ops|
  {
    if ops != [] {
      NextKeeps(p, ops[0], pin, ref, id, snapshot);
      RunKeeps(Next(p, ops[0]), ops[1..], q, pin, ref, id, snapshot);
    }
  }

  function Empty(): Pool { Pool([], map[], 0, 0, {}, map[]) }

  /** From a retained drain on, until an undrain or its own close, whatever the
      controller and the leases do: the record gets no lease that is not in the
      snapshot, its identifier keeps leading to it, and once it has no leases
      left, as a successful wait requires, every lease of the snapshot has been
      released. */
  lemma RetainedDrainHolds(before: seq<Op>, p: Pool, id: Id, pin: nat, ops: seq<Op>, q: Pool)
    requires Run(Empty(), before, p) && id in p.records && pin !in p.pins
    requires Run(p, [BeginDrain(id, pin)] + ops, q) && Undrain(id) !in ops && Close(pin) !in ops
    ensures WellFormed(p)
    ensures var ref, snapshot := p.records[id], p.heap[p.records[id]].leases;
      && ref < |q.heap| && q.heap[ref].draining && q.heap[ref].leases <= snapshot
      && id in q.records && q.records[id] == ref
      && (q.heap[ref].leases == {} ==> snapshot <= q.released)
  {
    RunKeeps(Empty(), before, p, 0, 0, 0, {});
    var ref, snapshot := p.records[id], p.heap[p.records[id]].leases;
    NextKeeps(p, BeginDrain(id, pin), pin, ref, id, snapshot);
    assert ([BeginDrain(id, pin)] + ops)[1..] == ops;
    var d := Next(p, BeginDrain(id, pin));
    assert Held(d, pin, ref, id, snapshot);
    RunKeeps(d, ops, q, pin, ref, id, snapshot);
  }

  /** A backend that leases kept while it was taken away serves again when it is
      brought back, unless an administrator had drained it. */
  lemma RemoveThenUpsert(p: Pool, b: Backend)
    requires Inv(p) && Known(p, b.id) && !Spent(Of(p, b.id))
    ensures Inv(Next(p, Remove(b.id))) && !Known(Next(p, Remove(b.id)), b.id)
    ensures var q := Next(Next(p, Remove(b.id)), Upsert(b));
      && Linked(q) && Known(q, b.id) && q.records[b.id] == p.records[b.id]
      && Of(q, b.id).draining == Of(p, b.id).draining && Of(q, b.id).leases == Of(p, b.id).leases
  {
    RetiredOneKeeps(p, b.id, 0, 0, 0, {});
    var q := RetiredOne(p, b.id);
    assert Of(q, b.id) == Retired(Of(p, b.id));
    ReadmittedAside(Of(q, b.id), b, false);
    AdmittedKeeps(q, b, false, 0, 0, 0, {});
  }
}
