/** The backend pool: records that leases and drains hold on to after the
    controller has replaced them. A record is named by its index in `heap`, which
    stands for its address; `records` is the map from identifiers. */
module Pool {
  import opened Options

  type Id = nat
  type Ref = nat

  /** Model 0 serves every model. */
  datatype Backend = Backend(id: Id, model: nat, address: nat)

  datatype Health = Unknown | Healthy | Unhealthy

  datatype Record = Record(
    backend: Backend, revision: nat, health: Health, draining: bool, retirementDrain: bool, retired: bool,
    quarantinedUntil: int, leases: set<nat>, waiters: int)

  /** `epoch` counts the selection notifications, each of which closes the
      channel that was current; `released` holds the leases given back and
      `pins` the drains and waits that are not closed yet. */
  datatype Pool = Pool(heap: seq<Record>, records: map<Id, Ref>, nextLease: nat, epoch: nat,
                       released: set<nat>, pins: map<nat, Ref>)

  predicate Linked(p: Pool) { LinkedIn(p.heap, p.records) }

  predicate LinkedIn(heap: seq<Record>, records: map<Id, Ref>) {
    forall id | id in records :: records[id] < |heap| && heap[records[id]].backend.id == id
  }

  function Put(p: Pool, ref: Ref, r: Record): Pool
    requires ref < |p.heap|
  {
    p.(heap := p.heap[ref := r])
  }

  function Signalled(p: Pool): Pool { p.(epoch := p.epoch + 1) }

  predicate Current(p: Pool, ref: Ref)
    requires ref < |p.heap|
  {
    var id := p.heap[ref].backend.id;
    id in p.records && p.records[id] == ref
  }

  predicate Spent(r: Record) { r.leases == {} && r.waiters == 0 }

  function Cleaned(p: Pool, ref: Ref): Pool
    requires ref < |p.heap|
  {
    p.(records := CleanedRecords(p.heap, p.records, ref))
  }

  function CleanedRecords(heap: seq<Record>, records: map<Id, Ref>, ref: Ref): map<Id, Ref>
    requires ref < |heap|
  {
    var r := heap[ref];
    if r.retired && Spent(r) && r.backend.id in records && records[r.backend.id] == ref
    then records - {r.backend.id} else records
  }

  function NewRecord(b: Backend, health: Health): Record {
    Record(b, 1, health, false, false, false, 0, {}, 0)
  }

  /** A change of address starts a new revision of unknown health. */
  function Updated(r: Record, b: Backend): Record {
    if r.backend.address != b.address
    then r.(backend := b, revision := r.revision + 1, health := Unknown) else r.(backend := b)
  }

  /** Only a drain that retirement itself started ends with it. */
  function Revived(r: Record): Record {
    if r.retirementDrain then r.(draining := false, retirementDrain := false) else r
  }

  function Retired(r: Record): Record {
    if r.draining then r.(retired := true) else r.(retired := true, draining := true, retirementDrain := true)
  }

  function Readmitted(r: Record, b: Backend, admitNew: bool): Record {
    var u := Updated(r, b);
    var v := if r.retired then u.(revision := u.revision + 1) else u;
    var w := if admitNew && (r.retired || r.backend.address != b.address) then v.(health := Healthy) else v;
    (if r.retired then Revived(w) else w).(retired := false)
  }

  function Admitted(p: Pool, b: Backend, admitNew: bool): Pool
    requires Linked(p)
  {
    if b.id !in p.records
    then Signalled(p.(heap := p.heap + [NewRecord(b, if admitNew then Healthy else Unknown)],
                      records := p.records[b.id := |p.heap|]))
    else Signalled(Put(p, p.records[b.id], Readmitted(p.heap[p.records[b.id]], b, admitNew)))
  }

  lemma AdmittedLinked(p: Pool, b: Backend, admitNew: bool)
    requires Linked(p)
    ensures Linked(Admitted(p, b, admitNew))
  {
  }

  ghost function AdmittedAll(p: Pool, bs: seq<Backend>, admitNew: bool): Pool
    requires Linked(p)
    decreases |bs|
  {
    if bs == [] then p
    else
      AdmittedLinked(p, bs[0], admitNew);
      AdmittedAll(Admitted(p, bs[0], admitNew), bs[1..], admitNew)
  }

  function RetiredOne(p: Pool, id: Id): Pool
    requires Linked(p) && id in p.records
  {
    var ref := p.records[id];
    Cleaned(Signalled(Put(p, ref, Retired(p.heap[ref]))), ref)
  }

  function SpentIds(p: Pool, ids: set<Id>): set<Id>
    requires Linked(p)
  {
    set id | id in ids && id in p.records && Spent(p.heap[p.records[id]])
  }

  /** All of `ids` retired, in whatever order. */
  ghost function RetiredSet(p: Pool, ids: set<Id>): Pool
    requires Linked(p) && ids <= p.records.Keys
  {
    p.(heap := seq(|p.heap|, i requires 0 <= i < |p.heap| =>
                 if p.heap[i].backend.id in ids && Current(p, i) then Retired(p.heap[i]) else p.heap[i]),
       records := p.records - SpentIds(p, ids),
       epoch := p.epoch + |ids|)
  }

  lemma RetiredNone(p: Pool)
    requires Linked(p)
    ensures RetiredSet(p, {}) == p
  {
    assert p.records - SpentIds(p, {}) == p.records;
  }

  lemma RetiredMore(p: Pool, ids: set<Id>, id: Id)
    requires Linked(p) && ids <= p.records.Keys && id in p.records && id !in ids
    ensures var q := RetiredSet(p, ids);
      && Linked(q) && id in q.records && q.records[id] == p.records[id]
      && q.heap[q.records[id]] == p.heap[p.records[id]]
      && RetiredOne(q, id) == RetiredSet(p, ids + {id})
  {
    var q, ref := RetiredSet(p, ids), p.records[id];
    assert q.heap[ref] == p.heap[ref];
    assert |ids + {id}| == |ids| + 1;
    RetiredHeap(p, ids, id);
    RetiredRecords(p, ids, id);
  }

  lemma RetiredHeap(p: Pool, ids: set<Id>, id: Id)
    requires Linked(p) && ids <= p.records.Keys && id in p.records && id !in ids
    ensures RetiredSet(p, ids).heap[p.records[id] := Retired(Of(p, id))] == RetiredSet(p, ids + {id}).heap
  {
  }

  lemma RetiredRecords(p: Pool, ids: set<Id>, id: Id)
    requires Linked(p) && ids <= p.records.Keys && id in p.records && id !in ids
    ensures RetiredSet(p, ids + {id}).records ==
            if Spent(Of(p, id)) then RetiredSet(p, ids).records - {id} else RetiredSet(p, ids).records
  {
    SpentMore(p, ids, id);
    DropOneMore(p.records, SpentIds(p, ids), id);
  }

  lemma SpentMore(p: Pool, ids: set<Id>, id: Id)
    requires Linked(p) && id in p.records
    ensures SpentIds(p, ids + {id}) == if Spent(Of(p, id)) then SpentIds(p, ids) + {id} else SpentIds(p, ids)
  {
  }

  lemma DropOneMore(m: map<Id, Ref>, ids: set<Id>, id: Id)
    ensures m - (ids + {id}) == m - ids - {id}
  {
  }

  function Ids(bs: seq<Backend>): set<Id> { set i | 0 <= i < |bs| :: bs[i].id }

  predicate Distinct(bs: seq<Backend>) {
    forall i, j | 0 <= i < j < |bs| :: bs[i].id != bs[j].id
  }

  function Stale(p: Pool, seen: set<Id>): set<Id>
    requires Linked(p)
  {
    set id | id in p.records && id !in seen && !p.heap[p.records[id]].retired
  }

  lemma {:induction false} AdmittedAllLinked(p: Pool, bs: seq<Backend>, admitNew: bool)
    requires Linked(p)
    ensures Linked(AdmittedAll(p, bs, admitNew))
    decreases |bs|
  {
    if bs != [] {
      AdmittedLinked(p, bs[0], admitNew);
      AdmittedAllLinked(Admitted(p, bs[0], admitNew), bs[1..], admitNew);
    }
  }

  /** The controller's set, complete: a duplicate identifier changes nothing. */
  ghost function Replaced(p: Pool, bs: seq<Backend>, admitNew: bool): Pool
    requires Linked(p)
  {
    if !Distinct(bs) then p
    else
      var q := AdmittedAll(p, bs, admitNew);
      AdmittedAllLinked(p, bs, admitNew);
      RetiredSet(q, Stale(q, Ids(bs)))
  }

  predicate Serves(b: Backend, model: nat) { b.model == 0 || b.model == model }

  predicate Eligible(r: Record, now: int) {
    !r.retired && r.health == Healthy && !r.draining && now >= r.quarantinedUntil
  }

  function Acquired(p: Pool, ref: Ref): Pool
    requires ref < |p.heap|
  {
    var lease := p.nextLease + 1;
    Put(p, ref, p.heap[ref].(leases := p.heap[ref].leases + {lease})).(nextLease := lease)
  }

  function Released(p: Pool, ref: Ref, lease: nat): Pool
    requires ref < |p.heap|
  {
    if lease in p.released || lease !in p.heap[ref].leases then p
    else
      var r := p.heap[ref].(leases := p.heap[ref].leases - {lease});
      Cleaned(Put(p, ref, r).(released := p.released + {lease}), ref)
  }

  function Drained(p: Pool, ref: Ref, pin: nat): Pool
    requires ref < |p.heap|
  {
    var r := p.heap[ref];
    var q := Put(p, ref, r.(draining := true, retirementDrain := false, waiters := r.waiters + 1));
    (if r.draining then q else Signalled(q)).(pins := p.pins[pin := ref])
  }

  function Unpinned(p: Pool, pin: nat): Pool
    requires pin in p.pins && p.pins[pin] < |p.heap|
  {
    var ref := p.pins[pin];
    Cleaned(Put(p, ref, p.heap[ref].(waiters := p.heap[ref].waiters - 1)).(pins := p.pins - {pin}), ref)
  }

  predicate WellFormed(p: Pool) {
    Linked(p) && forall pin | pin in p.pins :: p.pins[pin] < |p.heap|
  }

  /** A backend that the controller has not taken away. */
  predicate Known(p: Pool, id: Id)
    requires Linked(p)
  {
    id in p.records && !p.heap[p.records[id]].retired
  }

  function Of(p: Pool, id: Id): Record
    requires Linked(p) && id in p.records
  {
    p.heap[p.records[id]]
  }

  datatype Op =
    | Upsert(b: Backend) | Replace(bs: seq<Backend>, admitNew: bool) | Remove(id: Id)
    | Acquire(id: Id, now: int) | Release(ref: Ref, lease: nat)
    | SetHealth(id: Id, health: Health) | MarkPassive(id: Id, until: int) | Probe(id: Id, revision: nat, healthy: bool)
    | MarkDraining(id: Id) | Undrain(id: Id)
    | BeginDrain(id: Id, pin: nat) | BeginWait(id: Id, pin: nat) | Close(pin: nat)

  /** Changes the flags of a record and nothing that leases or pins depend on. */
  predicate SetsFlags(op: Op) { op.SetHealth? || op.MarkPassive? || op.Probe? || op.MarkDraining? || op.Undrain? }

  function SignalledIf(p: Pool, changed: bool): Pool { if changed then Signalled(p) else p }

  /** The flags of a record after such an operation, and whether it notifies. */
  function FlagsSet(r: Record, op: Op): (Record, bool)
    requires SetsFlags(op)
  {
    match op
    case SetHealth(_, health) => (r.(health := health), r.health != health)
    case MarkPassive(_, until) => (if r.quarantinedUntil < until then r.(quarantinedUntil := until) else r, true)
    case Probe(_, revision, healthy) =>
      var health := if healthy then Healthy else Unhealthy;
      if r.revision == revision then (r.(health := health), r.health != health) else (r, false)
    case MarkDraining(_) => (r.(draining := true, retirementDrain := false), !r.draining)
    case Undrain(_) => if r.draining then (r.(draining := false, retirementDrain := false), true) else (r, false)
  }

  function FlagNext(p: Pool, op: Op): Pool
    requires Linked(p) && SetsFlags(op)
  {
    if Known(p, op.id)
    then SignalledIf(Put(p, p.records[op.id], FlagsSet(Of(p, op.id), op).0), FlagsSet(Of(p, op.id), op).1)
    else p
  }

  function AcquireNext(p: Pool, id: Id, now: int): Pool
    requires Linked(p)
  {
    if Known(p, id) && Eligible(Of(p, id), now) then Acquired(p, p.records[id]) else p
  }

  function RemoveNext(p: Pool, id: Id): Pool
    requires Linked(p)
  {
    if Known(p, id) then RetiredOne(p, id) else p
  }

  function ReleaseNext(p: Pool, ref: Ref, lease: nat): Pool {
    if ref < |p.heap| then Released(p, ref, lease) else p
  }

  function DrainNext(p: Pool, id: Id, pin: nat): Pool
    requires Linked(p)
  {
    if id in p.records && pin !in p.pins then Drained(p, p.records[id], pin) else p
  }

  function CloseNext(p: Pool, pin: nat): Pool
    requires WellFormed(p)
  {
    if pin in p.pins then Unpinned(p, pin) else p
  }

  function WaitNext(p: Pool, id: Id, pin: nat): Pool
    requires Linked(p)
  {
    if Known(p, id) && Of(p, id).draining && pin !in p.pins
    then Put(p, p.records[id], Of(p, id).(waiters := Of(p, id).waiters + 1)).(pins := p.pins[pin := p.records[id]])
    else p
  }

  /** One operation. What an operation refuses leaves the pool as it is. */
  ghost function Next(p: Pool, op: Op): Pool
    requires WellFormed(p)
  {
    match op
    case Upsert(b) => Admitted(p, b, false)
    case Replace(bs, admitNew) => Replaced(p, bs, admitNew)
    case Remove(id) => RemoveNext(p, id)
    case Acquire(id, now) => AcquireNext(p, id, now)
    case Release(ref, lease) => ReleaseNext(p, ref, lease)
    case SetHealth(_, _) => FlagNext(p, op)
    case MarkPassive(_, _) => FlagNext(p, op)
    case Probe(_, _, _) => FlagNext(p, op)
    case MarkDraining(_) => FlagNext(p, op)
    case Undrain(_) => FlagNext(p, op)
    case BeginDrain(id, pin) => DrainNext(p, id, pin)
    case BeginWait(id, pin) => WaitNext(p, id, pin)
    case Close(pin) => CloseNext(p, pin)
  }

  class BackendPool {
    var heap: seq<Record>
    var records: map<Id, Ref>
    var nextLease: nat
    var epoch: nat
    var released: set<nat>
    var pins: map<nat, Ref>

    ghost function View(): Pool
      reads this
    {
      Pool(heap, records, nextLease, epoch, released, pins)
    }

    method Cleanup(ref: Ref)
      requires ref < |heap|
      modifies this`records
      ensures View() == Cleaned(old(View()), ref)
    {
      var r := heap[ref];
      if r.retired && r.leases == {} && r.waiters == 0 && r.backend.id in records && records[r.backend.id] == ref {
        records := records - {r.backend.id};
      }
    }

    method Admit(b: Backend, admitNew: bool)
      requires Linked(View())
      modifies this`heap, this`records, this`epoch
      ensures Linked(View()) && View() == Admitted(old(View()), b, admitNew)
    {
      AdmittedLinked(View(), b, admitNew);
      if b.id !in records {
        records := records[b.id := |heap|];
        heap := heap + [NewRecord(b, if admitNew then Healthy else Unknown)];
        epoch := epoch + 1;
        return;
      }
      var ref := records[b.id];
      var r := heap[ref];
      var wasRetired, urlChanged := r.retired, r.backend.address != b.address;
      r := Updated(r, b);
      if wasRetired { r := r.(revision := r.revision + 1); }
      if admitNew && (wasRetired || urlChanged) { r := r.(health := Healthy); }
      if wasRetired { r := Revived(r); }
      heap := heap[ref := r.(retired := false)];
      epoch := epoch + 1;
    }

    method Retire(id: Id)
      requires Linked(View()) && id in records
      modifies this`heap, this`records, this`epoch
      ensures View() == RetiredOne(old(View()), id)
    {
      var ref := records[id];
      heap := heap[ref := Retired(heap[ref])];
      epoch := epoch + 1;
      Cleanup(ref);
    }

    method Replace(bs: seq<Backend>, admitNew: bool) returns (ok: bool)
      requires Linked(View())
      modifies this`heap, this`records, this`epoch
      ensures ok <==> Distinct(bs)
      ensures View() == Replaced(old(View()), bs, admitNew)
    {
      var seen: set<Id> := {};
      for i := 0 to |bs|
        invariant seen == Ids(bs[..i]) && Distinct(bs[..i])
      {
        if bs[i].id in seen { return false; }
        seen := seen + {bs[i].id};
      }
      assert bs[..|bs|] == bs;
      for i := 0 to |bs|
        invariant Linked(View()) && AdmittedAll(View(), bs[i..], admitNew) == AdmittedAll(old(View()), bs, admitNew)
      {
        Admit(bs[i], admitNew);
        assert bs[i..][1..] == bs[i + 1..];
      }
      ok := true;
      RetireStale(seen);
    }

    method RetireStale(seen: set<Id>)
      requires Linked(View())
      modifies this`heap, this`records, this`epoch
      ensures View() == RetiredSet(old(View()), Stale(old(View()), seen))
    {
      RetireAll(set id | id in records && id !in seen && !heap[records[id]].retired);
    }

    method RetireAll(ids: set<Id>)
      requires Linked(View()) && ids <= records.Keys
      modifies this`heap, this`records, this`epoch
      ensures View() == RetiredSet(old(View()), ids)
    {
      ghost var p := View();
      var left := ids;
      RetiredNone(p);
      assert ids - left == {};
      while left != {}
        invariant left <= ids && View() == RetiredSet(p, ids - left)
        decreases left
      {
        left := RetireNext(p, ids, left);
      }
      assert ids - left == ids;
    }

    method RetireNext(ghost p: Pool, ghost ids: set<Id>, left: set<Id>) returns (rest: set<Id>)
      requires Linked(p) && left <= ids <= p.records.Keys && left != {} && View() == RetiredSet(p, ids - left)
      modifies this`heap, this`records, this`epoch
      ensures rest < left && View() == RetiredSet(p, ids - rest)
    {
      var id :| id in left;
      rest := left - {id};
      RetiredMore(p, ids - left, id);
      Retire(id);
      assert ids - rest == ids - left + {id};
    }

    method Upsert(b: Backend)
      requires WellFormed(View())
      modifies this`heap, this`records, this`epoch
      ensures View() == Next(old(View()), Op.Upsert(b))
    {
      Admit(b, false);
    }

    method Remove(id: Id) returns (ok: bool)
      requires WellFormed(View())
      modifies this`heap, this`records, this`epoch
      ensures View() == Next(old(View()), Op.Remove(id)) && (ok <==> old(Known(View(), id)))
    {
      if id !in records || heap[records[id]].retired { return false; }
      Retire(id);
      return true;
    }

    method AcquireID(id: Id, now: int) returns (lease: Option<nat>)
      requires WellFormed(View())
      modifies this`heap, this`nextLease
      ensures View() == Next(old(View()), Acquire(id, now))
      ensures lease == if old(Known(View(), id) && Eligible(Of(View(), id), now)) then Some(nextLease) else None
    {
      if id !in records || heap[records[id]].retired { return None; }
      var r := heap[records[id]];
      if r.health != Healthy || r.draining || now < r.quarantinedUntil { return None; }
      nextLease := nextLease + 1;
      heap := heap[records[id] := r.(leases := r.leases + {nextLease})];
      return Some(nextLease);
    }

    method Release(ref: Ref, lease: nat)
      requires WellFormed(View()) && ref < |heap|
      modifies this`heap, this`records, this`released
      ensures View() == Next(old(View()), Op.Release(ref, lease))
    {
      if lease in released || lease !in heap[ref].leases { return; }
      released := released + {lease};
      heap := heap[ref := heap[ref].(leases := heap[ref].leases - {lease})];
      Cleanup(ref);
    }

    /** Marks the record as drained by an administrator, pins it and returns its
        leases. */
    method BeginRetainedDrain(id: Id, pin: nat) returns (found: bool, ref: Ref, snapshot: set<nat>)
      requires WellFormed(View()) && pin !in pins
      modifies this`heap, this`epoch, this`pins
      ensures View() == Next(old(View()), BeginDrain(id, pin))
      ensures found <==> id in records
      ensures found ==> pins[pin] == ref == records[id] && snapshot == heap[ref].leases
    {
      if id !in records { return false, 0, {}; }
      ref := records[id];
      var r := heap[ref];
      if !r.draining { epoch := epoch + 1; }
      heap := heap[ref := r.(draining := true, retirementDrain := false, waiters := r.waiters + 1)];
      pins := pins[pin := ref];
      return true, ref, r.leases;
    }

    method CloseDrain(pin: nat)
      requires WellFormed(View())
      modifies this`heap, this`records, this`pins
      ensures View() == Next(old(View()), Close(pin))
    {
      if pin !in pins { return; }
      var ref := pins[pin];
      pins := pins - {pin};
      heap := heap[ref := heap[ref].(waiters := heap[ref].waiters - 1)];
      Cleanup(ref);
    }

    method ProbeOne(id: Id, revision: nat, healthy: bool)
      requires WellFormed(View())
      modifies this`heap, this`epoch
      ensures View() == Next(old(View()), Probe(id, revision, healthy))
    {
      if id !in records || heap[records[id]].retired { return; }
      var r := heap[records[id]];
      if r.revision != revision {
        assert heap[records[id] := r] == heap;
        return;
      }
      var health := if healthy then Healthy else Unhealthy;
      if r.health != health { epoch := epoch + 1; }
      heap := heap[records[id] := r.(health := health)];
    }
  }
}
