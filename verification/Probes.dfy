/** Health probes: a probe is made of the address and revision that a record had
    when the round started, and its result is applied when it comes back, after
    any pool operations. The revision is the fence against results that have
    become stale; it belongs to the record, not to the identifier. */
module Probes {
  import opened Pool
  import opened Drain

  /** What one operation does to a record: its revision never falls, and stays
      exactly if the address stays and the record is not brought back. */
  predicate Moved(r: Record, t: Record) {
    && t.backend.id == r.backend.id && r.revision <= t.revision
    && (r.revision == t.revision <==> t.backend.address == r.backend.address && (r.retired ==> t.retired))
  }

  /** The record stays where it is, loses only leases that are released, and is
      forgotten only once nobody uses it. */
  predicate Goes(p: Pool, q: Pool, ref: Ref) {
    && ref < |p.heap| <= |q.heap| && p.released <= q.released
    && Moved(p.heap[ref], q.heap[ref])
    && p.heap[ref].leases <= q.heap[ref].leases + q.released
    && (Current(p, ref) && !Spent(q.heap[ref]) ==> Current(q, ref))
  }

  lemma PutGoes(p: Pool, at: Ref, r: Record, q: Pool, ref: Ref)
    requires ref < |p.heap| && at < |p.heap| && Moved(p.heap[at], r)
    requires q.heap == p.heap[at := r] && p.released <= q.released && p.heap[at].leases <= r.leases + q.released
    requires q.records == p.records || q.records == CleanedRecords(q.heap, p.records, at)
    ensures Goes(p, q, ref)
  {
  }

  lemma FlagGoes(p: Pool, op: Op, ref: Ref)
    requires Linked(p) && SetsFlags(op) && ref < |p.heap|
    ensures Goes(p, FlagNext(p, op), ref)
  {
    if Known(p, op.id) {
      PutGoes(p, p.records[op.id], FlagsSet(Of(p, op.id), op).0, FlagNext(p, op), ref);
    }
  }

  lemma AcquireGoes(p: Pool, id: Id, now: int, ref: Ref)
    requires Linked(p) && ref < |p.heap|
    ensures Goes(p, AcquireNext(p, id, now), ref)
  {
    if Known(p, id) && Eligible(Of(p, id), now) {
      PutGoes(p, p.records[id], Of(p, id).(leases := Of(p, id).leases + {p.nextLease + 1}),
              AcquireNext(p, id, now), ref);
    }
  }

  lemma ReleaseGoes(p: Pool, at: Ref, lease: nat, ref: Ref)
    requires Linked(p) && ref < |p.heap|
    ensures Goes(p, ReleaseNext(p, at, lease), ref)
  {
    if at < |p.heap| && lease !in p.released && lease in p.heap[at].leases {
      PutGoes(p, at, p.heap[at].(leases := p.heap[at].leases - {lease}), ReleaseNext(p, at, lease), ref);
    }
  }

  lemma PinGoes(p: Pool, id: Id, pin: nat, ref: Ref)
    requires Linked(p) && ref < |p.heap|
    ensures Goes(p, DrainNext(p, id, pin), ref) && Goes(p, WaitNext(p, id, pin), ref)
  {
    if id in p.records && pin !in p.pins {
      var r := Of(p, id);
      PutGoes(p, p.records[id], r.(draining := true, retirementDrain := false, waiters := r.waiters + 1),
              DrainNext(p, id, pin), ref);
      if Known(p, id) && r.draining {
        PutGoes(p, p.records[id], r.(waiters := r.waiters + 1), WaitNext(p, id, pin), ref);
      }
    }
  }

  lemma CloseGoes(p: Pool, pin: nat, ref: Ref)
    requires WellFormed(p) && ref < |p.heap|
    ensures Goes(p, CloseNext(p, pin), ref)
  {
    if pin in p.pins {
      var at := p.pins[pin];
      PutGoes(p, at, p.heap[at].(waiters := p.heap[at].waiters - 1), CloseNext(p, pin), ref);
    }
  }

  lemma RemoveGoes(p: Pool, id: Id, ref: Ref)
    requires Linked(p) && ref < |p.heap|
    ensures Goes(p, RemoveNext(p, id), ref)
  {
    if Known(p, id) {
      PutGoes(p, p.records[id], Retired(Of(p, id)), RemoveNext(p, id), ref);
    }
  }

  /** An admission changes at most the record of that identifier. */
  lemma AdmittedRecord(p: Pool, b: Backend, admitNew: bool, ref: Ref)
    requires Linked(p) && ref < |p.heap|
    ensures var q := Admitted(p, b, admitNew);
      && |p.heap| <= |q.heap| && q.released == p.released && (Current(p, ref) ==> Current(q, ref))
      && q.heap[ref] == if b.id in p.records && p.records[b.id] == ref then Readmitted(p.heap[ref], b, admitNew)
                        else p.heap[ref]
  {
  }

  lemma ReadmittedMoved(r: Record, b: Backend, admitNew: bool)
    requires b.id == r.backend.id
    ensures var t := Readmitted(r, b, admitNew);
      Moved(r, t) && t.leases == r.leases && t.waiters == r.waiters && t.backend.id == r.backend.id && !t.retired
  {
  }

  lemma UpsertGoes(p: Pool, b: Backend, ref: Ref)
    requires Linked(p) && ref < |p.heap|
    ensures Goes(p, Admitted(p, b, false), ref)
  {
    AdmittedRecord(p, b, false, ref);
    if b.id in p.records && p.records[b.id] == ref { ReadmittedMoved(p.heap[ref], b, false); }
  }

  /** What a whole set of admissions does to a record. */
  predicate Admits(p: Pool, q: Pool, ref: Ref) {
    && ref < |p.heap| <= |q.heap| && q.released == p.released
    && Moved(p.heap[ref], q.heap[ref])
    && q.heap[ref].leases == p.heap[ref].leases && q.heap[ref].waiters == p.heap[ref].waiters
    && (Current(p, ref) ==> Current(q, ref))
  }

  lemma AdmittedAdmits(p: Pool, b: Backend, admitNew: bool, ref: Ref)
    requires Linked(p) && ref < |p.heap|
    ensures Admits(p, Admitted(p, b, admitNew), ref)
    ensures b.id != p.heap[ref].backend.id ==> Admitted(p, b, admitNew).heap[ref] == p.heap[ref]
  {
    AdmittedRecord(p, b, admitNew, ref);
    if b.id in p.records && p.records[b.id] == ref { ReadmittedMoved(p.heap[ref], b, admitNew); }
  }

  /** Of distinct identifiers only one admission concerns a record. */
  lemma {:induction false} AdmittedAllAdmits(p: Pool, bs: seq<Backend>, admitNew: bool, ref: Ref)
    requires Linked(p) && ref < |p.heap| && Distinct(bs)
    ensures Admits(p, AdmittedAll(p, bs, admitNew), ref)
    ensures p.heap[ref].backend.id !in Ids(bs) ==> AdmittedAll(p, bs, admitNew).heap[ref] == p.heap[ref]
    decreases |bs|
  {
    if bs != [] {
      var first, rest := Admitted(p, bs[0], admitNew), bs[1..];
      AdmittedLinked(p, bs[0], admitNew);
      AdmittedAdmits(p, bs[0], admitNew, ref);
      AdmittedAllAdmits(first, rest, admitNew, ref);
      RestIds(bs);
    }
  }

  lemma RestIds(bs: seq<Backend>)
    requires bs != [] && Distinct(bs)
    ensures Ids(bs) == {bs[0].id} + Ids(bs[1..]) && bs[0].id !in Ids(bs[1..]) && Distinct(bs[1..])
  {
    assert bs == [bs[0]] + bs[1..];
    forall i | 0 <= i < |bs[1..]| ensures bs[1..][i].id != bs[0].id {
      assert bs[1..][i] == bs[i + 1];
    }
  }

  lemma RetiredSetGoes(p: Pool, ids: set<Id>, ref: Ref)
    requires Linked(p) && ids <= p.records.Keys && ref < |p.heap|
    ensures Goes(p, RetiredSet(p, ids), ref)
  {
  }

  lemma AdmitsThenGoes(p: Pool, m: Pool, q: Pool, ref: Ref)
    requires Admits(p, m, ref) && Goes(m, q, ref)
    requires q.heap[ref] == m.heap[ref] || (q.heap[ref] == Retired(m.heap[ref]) && m.heap[ref] == p.heap[ref])
    ensures Goes(p, q, ref)
  {
  }

  lemma ReplaceGoes(p: Pool, bs: seq<Backend>, admitNew: bool, ref: Ref)
    requires Linked(p) && ref < |p.heap|
    ensures Goes(p, Replaced(p, bs, admitNew), ref)
  {
    if Distinct(bs) {
      var m := AdmittedAll(p, bs, admitNew);
      AdmittedAllAdmits(p, bs, admitNew, ref);
      AdmittedAllLinked(p, bs, admitNew);
      RetiredSetGoes(m, Stale(m, Ids(bs)), ref);
      AdmitsThenGoes(p, m, Replaced(p, bs, admitNew), ref);
    }
  }

  lemma NextGoes(p: Pool, op: Op, ref: Ref)
    requires WellFormed(p) && ref < |p.heap|
    ensures Goes(p, Next(p, op), ref)
  {
    if SetsFlags(op) {
      FlagGoes(p, op, ref);
    } else {
      match op {
        case Upsert(b) => UpsertGoes(p, b, ref);
        case Replace(bs, admitNew) => ReplaceGoes(p, bs, admitNew, ref);
        case Remove(id) => RemoveGoes(p, id, ref);
        case Acquire(id, now) => AcquireGoes(p, id, now, ref);
        case Release(at, lease) => ReleaseGoes(p, at, lease, ref);
        case BeginDrain(id, pin) => PinGoes(p, id, pin, ref);
        case BeginWait(id, pin) => PinGoes(p, id, pin, ref);
        case Close(pin) => CloseGoes(p, pin, ref);
      }
    }
  }

  /** In every state of the run the record is there, not taken away, under this
      address. */
  ghost predicate Steady(p: Pool, ops: seq<Op>, ref: Ref, address: nat)
    decreases |ops|
  {
    && ref < |p.heap| && !p.heap[ref].retired && p.heap[ref].backend.address == address
    && (ops == [] || (WellFormed(p) && Steady(Next(p, ops[0]), ops[1..], ref, address)))
  }

  /** Over every run a record keeps its place and its revision never falls; if
      the revision has not changed, neither has the address, and a record that
      had been taken away is still away. */
  lemma {:induction false} RevisionRises(p: Pool, ops: seq<Op>, q: Pool, ref: Ref)
    requires Inv(p) && Run(p, ops, q) && ref < |p.heap|
    ensures Inv(q) && ref < |q.heap| && q.heap[ref].backend.id == p.heap[ref].backend.id
    ensures p.heap[ref].revision <= q.heap[ref].revision
    ensures p.heap[ref].revision == q.heap[ref].revision ==>
              && q.heap[ref].backend.address == p.heap[ref].backend.address
              && (p.heap[ref].retired ==> q.heap[ref].retired)
    decreases |ops|
  {
    if ops != [] {
      NextGoes(p, ops[0], ref);
      NextKeeps(p, ops[0], 0, 0, 0, {});
      RevisionRises(Next(p, ops[0]), ops[1..], q, ref);
    }
  }

  /** The fence over runs: a record that is not taken away has its old revision if
      and only if it was never taken away and never moved in between. */
  lemma {:induction false} FenceExact(p: Pool, ops: seq<Op>, q: Pool, ref: Ref)
    requires Inv(p) && Run(p, ops, q) && ref < |p.heap| && !p.heap[ref].retired
    ensures ref < |q.heap|
    ensures !q.heap[ref].retired && q.heap[ref].revision == p.heap[ref].revision
            <==> Steady(p, ops, ref, p.heap[ref].backend.address)
    decreases |ops|
  {
    if ops != [] {
      var next := Next(p, ops[0]);
      NextGoes(p, ops[0], ref);
      NextKeeps(p, ops[0], 0, 0, 0, {});
      RevisionRises(next, ops[1..], q, ref);
      if !next.heap[ref].retired { FenceExact(next, ops[1..], q, ref); }
    }
  }

  /** What probing found is applied to the identifier's record. */
  predicate Lands(q: Pool, id: Id, revision: nat)
    requires Linked(q)
  {
    Known(q, id) && Of(q, id).revision == revision
  }

  function Found(healthy: bool): Health { if healthy then Healthy else Unhealthy }

  /** The result still describes the record: it was probed, and has been there
      under the same address ever since. */
  ghost predicate Describes(p: Pool, ops: seq<Op>, q: Pool, id: Id)
    requires Linked(p) && Linked(q) && id in p.records
  {
    && id in q.records && q.records[id] == p.records[id]
    && Steady(p, ops, p.records[id], Of(p, id).backend.address)
  }

  /** The identifier leads to another record, which has reached the same revision. */
  predicate Mistaken(p: Pool, q: Pool, id: Id)
    requires Linked(p) && Linked(q) && id in p.records
  {
    && id in q.records && q.records[id] != p.records[id]
    && !Of(q, id).retired && Of(q, id).revision == Of(p, id).revision
  }

  /** A result lands exactly on the record it describes, or by mistake on another. */
  lemma LandsExactly(p: Pool, ops: seq<Op>, q: Pool, id: Id)
    requires Inv(p) && Run(p, ops, q) && Known(p, id)
    ensures Inv(q)
    ensures Lands(q, id, Of(p, id).revision) <==> Describes(p, ops, q, id) || Mistaken(p, q, id)
  {
    RevisionRises(p, ops, q, p.records[id]);
    FenceExact(p, ops, q, p.records[id]);
  }

  lemma ProbeEffect(q: Pool, id: Id, revision: nat, healthy: bool)
    requires WellFormed(q)
    ensures var after := Next(q, Probe(id, revision, healthy));
      && (Lands(q, id, revision) ==> after.heap == q.heap[q.records[id] := Of(q, id).(health := Found(healthy))])
      && after.records == q.records
      && (after != q <==> Lands(q, id, revision) && Of(q, id).health != Found(healthy))
  {
    if Known(q, id) && (!Lands(q, id, revision) || Of(q, id).health == Found(healthy)) {
      assert q.heap[q.records[id] := Of(q, id)] == q.heap;
    }
  }

  /** A probe whose record has since moved, or been taken away, even if it was
      brought back, changes the pool if and only if the identifier now leads to
      another record in use with that same revision, of other health. */
  lemma StaleProbe(p: Pool, ops: seq<Op>, q: Pool, id: Id, healthy: bool)
    requires Inv(p) && Run(p, ops, q) && Known(p, id)
    ensures Inv(q)
    ensures !Describes(p, ops, q, id) ==>
              (Next(q, Probe(id, Of(p, id).revision, healthy)) != q
               <==> Mistaken(p, q, id) && Of(q, id).health != Found(healthy))
  {
    LandsExactly(p, ops, q, id);
    ProbeEffect(q, id, Of(p, id).revision, healthy);
  }

  /** While a lease of the record is not released, the identifier keeps leading
      to it, and no stale result lands. */
  lemma {:induction false} LeaseKeepsRecord(p: Pool, ops: seq<Op>, q: Pool, id: Id, lease: nat)
    requires Inv(p) && Run(p, ops, q) && id in p.records && lease in Of(p, id).leases && lease !in q.released
    ensures Inv(q) && id in q.records && q.records[id] == p.records[id] && !Mistaken(p, q, id)
    decreases |ops|
  {
    if ops != [] {
      var next := Next(p, ops[0]);
      NextGoes(p, ops[0], p.records[id]);
      NextKeeps(p, ops[0], 0, 0, 0, {});
      ReleasedOnce(next, ops[1..], q);
      LeaseKeepsRecord(next, ops[1..], q, id, lease);
    }
  }

  lemma {:induction false} ReleasedOnce(p: Pool, ops: seq<Op>, q: Pool)
    requires Inv(p) && Run(p, ops, q) && p.heap != []
    ensures p.released <= q.released
    decreases |ops|
  {
    if ops != [] {
      NextGoes(p, ops[0], 0);
      NextKeeps(p, ops[0], 0, 0, 0, {});
      ReleasedOnce(Next(p, ops[0]), ops[1..], q);
    }
  }

  /** A drain or a wait that is not closed keeps it in the same way. */
  lemma {:induction false} PinKeepsRecord(p: Pool, ops: seq<Op>, q: Pool, id: Id, pin: nat)
    requires Inv(p) && Run(p, ops, q) && id in p.records && Close(pin) !in ops
    requires pin in p.pins && p.pins[pin] == p.records[id]
    ensures Inv(q) && id in q.records && q.records[id] == p.records[id] && !Mistaken(p, q, id)
    decreases |ops|
  {
    if ops != [] {
      var next := Next(p, ops[0]);
      assert ops[0] in ops;
      NextGoes(p, ops[0], p.records[id]);
      NextKeeps(p, ops[0], 0, 0, 0, {});
      PinStays(p, ops[0], pin);
      PinCounted(next, pin);
      PinKeepsRecord(next, ops[1..], q, id, pin);
    }
  }

  lemma PinStays(p: Pool, op: Op, pin: nat)
    requires WellFormed(p) && pin in p.pins && op != Close(pin)
    ensures var q := Next(p, op); pin in q.pins && q.pins[pin] == p.pins[pin]
  {
    if op.Replace? { AdmittedAllPins(p, op.bs, op.admitNew); }
  }

  lemma {:induction false} AdmittedAllPins(p: Pool, bs: seq<Backend>, admitNew: bool)
    requires Linked(p)
    ensures AdmittedAll(p, bs, admitNew).pins == p.pins
    decreases |bs|
  {
    if bs != [] {
      AdmittedLinked(p, bs[0], admitNew);
      AdmittedAllPins(Admitted(p, bs[0], admitNew), bs[1..], admitNew);
    }
  }

  /** The mistake is made: a backend is taken away while it is probed, nobody
      uses it, and its identifier comes back with another address. Its record is
      a new one at the first revision, and the address that was never probed is
      taken to be healthy. */
  lemma UnprobedHealthy() returns (before: seq<Op>, p: Pool, ops: seq<Op>, q: Pool)
    ensures Run(Empty(), before, p) && Inv(p) && Known(p, 1) && Of(p, 1).backend.address == 1
    ensures Run(p, ops, q) && Inv(q) && Mistaken(p, q, 1)
    ensures Of(q, 1).backend.address == 2 && Of(q, 1).health == Unknown
    ensures var after := Next(q, Probe(1, Of(p, 1).revision, true));
      Linked(after) && 1 in after.records && Of(after, 1).backend.address == 2 && Of(after, 1).health == Healthy
  {
    var one, two := Backend(1, 0, 1), Backend(1, 0, 2);
    before := [Upsert(one)];
    p := Next(Empty(), Upsert(one));
    RunOne(Empty(), Upsert(one));
    RunKeeps(Empty(), before, p, 0, 0, 0, {});
    var gone := Next(p, Remove(1));
    q := Next(gone, Upsert(two));
    ops := [Remove(1), Upsert(two)];
    NextKeeps(p, Remove(1), 0, 0, 0, {});
    RunOne(gone, Upsert(two));
    assert ops[1..] == [Upsert(two)];
    RunKeeps(p, ops, q, 0, 0, 0, {});
    NextKeeps(q, Probe(1, 1, true), 0, 0, 0, {});
  }

  lemma RunOne(p: Pool, op: Op)
    requires WellFormed(p)
    ensures Run(p, [op], Next(p, op))
  {
    assert [op][1..] == [];
  }
}
