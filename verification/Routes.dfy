/** The route registry on top of the pool: the controller's route updates, and
    the backend set they add up to. */
module Routes {
  import opened Options
  import opened Pool

  /** `digest` stands for the whole canonical update. */
  datatype Snapshot = Snapshot(model: nat, uid: nat, generation: int, deleted: bool, digest: nat,
                               backends: seq<Backend>)

  datatype Outcome = Applied | Unchanged | UidConflict | Outdated | Conflict

  /** The backends the controller has not taken away. */
  function Active(p: Pool): map<Id, Backend> { ActiveIn(p.heap, p.records) }

  function ActiveIn(heap: seq<Record>, records: map<Id, Ref>): map<Id, Backend> {
    map id | id in records && records[id] < |heap| && !heap[records[id]].retired :: heap[records[id]].backend
  }

  function Table(bs: seq<Backend>): map<Id, Backend> {
    if bs == [] then map[] else Table(bs[..|bs| - 1])[bs[|bs| - 1].id := bs[|bs| - 1]]
  }

  lemma AdmittedActive(p: Pool, b: Backend, admitNew: bool)
    requires Linked(p)
    ensures Linked(Admitted(p, b, admitNew)) && Active(Admitted(p, b, admitNew)) == Active(p)[b.id := b]
  {
    AdmittedLinked(p, b, admitNew);
    var q := Admitted(p, b, admitNew);
    if b.id in p.records {
      PutActive(p, p.records[b.id], Readmitted(Of(p, b.id), b, admitNew));
    } else {
      AddedActive(p, q, b);
    }
  }

  lemma PutActive(p: Pool, ref: Ref, r: Record)
    requires Linked(p) && ref < |p.heap| && Current(p, ref) && r.backend.id == p.heap[ref].backend.id && !r.retired
    ensures Linked(Put(p, ref, r)) && Active(Put(p, ref, r)) == Active(p)[r.backend.id := r.backend]
  {
  }

  lemma AddedActive(p: Pool, q: Pool, b: Backend)
    requires Linked(p) && b.id !in p.records && |q.heap| == |p.heap| + 1 && q.heap[..|p.heap|] == p.heap
    requires q.heap[|p.heap|].backend == b && !q.heap[|p.heap|].retired && q.records == p.records[b.id := |p.heap|]
    ensures Linked(q) && Active(q) == Active(p)[b.id := b]
  {
    forall i | 0 <= i < |p.heap| ensures q.heap[i] == p.heap[i] { assert q.heap[..|p.heap|][i] == p.heap[i]; }
  }

  lemma {:induction false} AdmittedAllActive(p: Pool, bs: seq<Backend>, admitNew: bool)
    requires Linked(p)
    ensures Linked(AdmittedAll(p, bs, admitNew)) && Active(AdmittedAll(p, bs, admitNew)) == Active(p) + Table(bs)
    decreases |bs|
  {
    if bs == [] {
      assert Active(p) + map[] == Active(p);
    } else {
      AdmittedActive(p, bs[0], admitNew);
      AdmittedAllActive(Admitted(p, bs[0], admitNew), bs[1..], admitNew);
      TableFirst(bs);
      MergeFirst(Active(p), bs[0], Table(bs[1..]));
    }
  }

  lemma MergeFirst(m: map<Id, Backend>, b: Backend, t: map<Id, Backend>)
    ensures m[b.id := b] + t == m + (map[b.id := b] + t)
  {
  }

  lemma MergeRest(m: map<Id, Backend>, t: map<Id, Backend>, stale: set<Id>)
    requires stale == m.Keys - t.Keys
    ensures m + t - stale == t
  {
  }

  lemma {:induction false} TableFirst(bs: seq<Backend>)
    requires bs != []
    ensures Table(bs) == map[bs[0].id := bs[0]] + Table(bs[1..])
    decreases |bs|
  {
    var n := |bs| - 1;
    if n == 0 {
      assert bs[..0] == [] && bs[1..] == [];
    } else {
      TableFirst(bs[..n]);
      assert bs[..n][1..] == bs[1..][..n - 1];
    }
  }

  lemma RetiredActive(p: Pool, ids: set<Id>)
    requires Linked(p) && ids <= p.records.Keys
    ensures Linked(RetiredSet(p, ids)) && Active(RetiredSet(p, ids)) == Active(p) - ids
  {
  }

  lemma {:induction false} TableKeys(bs: seq<Backend>)
    ensures Table(bs).Keys == Ids(bs)
    decreases |bs|
  {
    if bs != [] {
      var n := |bs| - 1;
      TableKeys(bs[..n]);
      assert bs == bs[..n] + [bs[n]];
      assert Ids(bs) == Ids(bs[..n]) + {bs[n].id};
    }
  }

  /** After a replacement, exactly the given backends are active. */
  lemma ReplacedActive(p: Pool, bs: seq<Backend>, admitNew: bool)
    requires Linked(p) && Distinct(bs)
    ensures Linked(Replaced(p, bs, admitNew)) && Active(Replaced(p, bs, admitNew)) == Table(bs)
  {
    AdmittedAllActive(p, bs, admitNew);
    TableKeys(bs);
    var q := AdmittedAll(p, bs, admitNew);
    var stale := Stale(q, Ids(bs));
    StaleKeys(q, Ids(bs));
    assert stale == Active(p).Keys - Table(bs).Keys;
    RetiredActive(q, stale);
    MergeRest(Active(p), Table(bs), stale);
  }

  lemma StaleKeys(p: Pool, seen: set<Id>)
    requires Linked(p)
    ensures Stale(p, seen) == Active(p).Keys - seen && Stale(p, seen) <= p.records.Keys
  {
  }

  /** A record changed in place, except for its backend and whether it is retired. */
  lemma PutSame(p: Pool, ref: Ref, r: Record)
    requires Linked(p) && ref < |p.heap| && r.backend == p.heap[ref].backend && r.retired == p.heap[ref].retired
    ensures LinkedIn(p.heap[ref := r], p.records) && ActiveIn(p.heap[ref := r], p.records) == Active(p)
  {
  }

  lemma CleanedSame(heap: seq<Record>, records: map<Id, Ref>, ref: Ref)
    requires LinkedIn(heap, records) && ref < |heap|
    ensures var cleaned := CleanedRecords(heap, records, ref);
      LinkedIn(heap, cleaned) && ActiveIn(heap, cleaned) == ActiveIn(heap, records)
  {
  }

  lemma PutCleaned(p: Pool, ref: Ref, r: Record)
    requires Linked(p) && ref < |p.heap| && r.backend == p.heap[ref].backend && r.retired == p.heap[ref].retired
    ensures var heap := p.heap[ref := r];
      var records := CleanedRecords(heap, p.records, ref);
      LinkedIn(heap, records) && ActiveIn(heap, records) == Active(p)
  {
    PutSame(p, ref, r);
    CleanedSame(p.heap[ref := r], p.records, ref);
  }

  /** Leases, health, drains and pins leave the active backends alone. */
  lemma OthersKeepActive(p: Pool, op: Op)
    requires WellFormed(p) && !op.Upsert? && !op.Replace? && !op.Remove?
    ensures Linked(Next(p, op)) && Active(Next(p, op)) == Active(p)
  {
    if SetsFlags(op) {
      FlagSame(p, op);
    } else {
      match op {
        case Acquire(id, now) => AcquireSame(p, id, now);
        case Release(ref, lease) => ReleaseSame(p, ref, lease);
        case BeginDrain(id, pin) => DrainSame(p, id, pin);
        case BeginWait(id, pin) => WaitSame(p, id, pin);
        case Close(pin) => CloseSame(p, pin);
      }
    }
  }

  lemma AcquireSame(p: Pool, id: Id, now: int)
    requires Linked(p)
    ensures Linked(AcquireNext(p, id, now)) && Active(AcquireNext(p, id, now)) == Active(p)
  {
    if id in p.records { PutSame(p, p.records[id], Of(p, id).(leases := Of(p, id).leases + {p.nextLease + 1})); }
  }

  lemma DrainSame(p: Pool, id: Id, pin: nat)
    requires Linked(p)
    ensures Linked(DrainNext(p, id, pin)) && Active(DrainNext(p, id, pin)) == Active(p)
  {
    if id in p.records {
      var r := Of(p, id);
      PutSame(p, p.records[id], r.(draining := true, retirementDrain := false, waiters := r.waiters + 1));
    }
  }

  lemma WaitSame(p: Pool, id: Id, pin: nat)
    requires Linked(p)
    ensures Linked(WaitNext(p, id, pin)) && Active(WaitNext(p, id, pin)) == Active(p)
  {
    if id in p.records { PutSame(p, p.records[id], Of(p, id).(waiters := Of(p, id).waiters + 1)); }
  }

  lemma ReleaseSame(p: Pool, ref: Ref, lease: nat)
    requires Linked(p)
    ensures Linked(ReleaseNext(p, ref, lease)) && Active(ReleaseNext(p, ref, lease)) == Active(p)
  {
    if ref < |p.heap| {
      var r := p.heap[ref];
      PutCleaned(p, ref, r.(leases := r.leases - {lease}));
    }
  }

  lemma CloseSame(p: Pool, pin: nat)
    requires WellFormed(p)
    ensures Linked(CloseNext(p, pin)) && Active(CloseNext(p, pin)) == Active(p)
  {
    if pin in p.pins {
      var ref := p.pins[pin];
      PutCleaned(p, ref, p.heap[ref].(waiters := p.heap[ref].waiters - 1));
    }
  }

  lemma FlagSame(p: Pool, op: Op)
    requires Linked(p) && SetsFlags(op)
    ensures Linked(FlagNext(p, op)) && Active(FlagNext(p, op)) == Active(p)
  {
    if Known(p, op.id) { PutSame(p, p.records[op.id], FlagsSet(Of(p, op.id), op).0); }
  }

  type Routes = map<nat, Snapshot>

  predicate Live(routes: Routes, r: nat) { r in routes && !routes[r].deleted }

  predicate AnyLive(routes: Routes) { exists r | r in routes :: Live(routes, r) }

  /** Live routes have models of their own and share no backend. */
  ghost predicate Compatible(routes: Routes) {
    forall a, b | Live(routes, a) && Live(routes, b) && a != b ::
      routes[a].model != routes[b].model && Ids(routes[a].backends) !! Ids(routes[b].backends)
  }

  /** What an update is once it is accepted: its backends serve its model only. */
  predicate Proper(s: Snapshot) {
    && Distinct(s.backends) && (s.deleted ==> s.backends == [])
    && s.model != 0 && forall i | 0 <= i < |s.backends| :: s.backends[i].model == s.model
  }

  /** `m` holds the backends of the live routes, or the static ones if none is live. */
  ghost predicate Holds(routes: Routes, m: map<Id, Backend>) {
    && (forall r, i | Live(routes, r) && 0 <= i < |routes[r].backends| ::
          var b := routes[r].backends[i]; b.id in m && m[b.id] == b)
    && (forall id | id in m ::
          m[id].id == id && exists r | r in routes :: Live(routes, r) && m[id] in routes[r].backends)
  }

  ghost predicate Expected(routes: Routes, static': seq<Backend>, m: map<Id, Backend>) {
    if AnyLive(routes) then Compatible(routes) && Holds(routes, m) else m == Table(static')
  }

  lemma {:induction false} TableOf(bs: seq<Backend>, i: nat)
    requires Distinct(bs) && i < |bs|
    ensures bs[i].id in Table(bs) && Table(bs)[bs[i].id] == bs[i]
    decreases |bs|
  {
    if i < |bs| - 1 { TableOf(bs[..|bs| - 1], i); }
  }

  lemma {:induction false} TableFrom(bs: seq<Backend>, id: Id)
    requires id in Table(bs)
    ensures Table(bs)[id].id == id && Table(bs)[id] in bs
    decreases |bs|
  {
    if bs[|bs| - 1].id != id { TableFrom(bs[..|bs| - 1], id); }
  }

  ghost predicate ModelsOf(routes: Routes, done: set<nat>, models: set<nat>) {
    && (forall r | r in done && Live(routes, r) :: routes[r].model in models)
    && (forall m | m in models :: exists r | r in done :: Live(routes, r) && routes[r].model == m)
  }

  ghost predicate BackendsOf(routes: Routes, done: set<nat>, combined: seq<Backend>) {
    && (forall r, b | r in done && Live(routes, r) && b in routes[r].backends :: b in combined)
    && (forall b | b in combined :: exists r | r in done :: Live(routes, r) && b in routes[r].backends)
  }

  ghost predicate Apart(routes: Routes, done: set<nat>) {
    forall x, y | x in done && y in done && Live(routes, x) && Live(routes, y) && x != y ::
      routes[x].model != routes[y].model && Ids(routes[x].backends) !! Ids(routes[y].backends)
  }

  /** What has been combined so far, from the routes in `done`. */
  ghost predicate Gathered(routes: Routes, done: set<nat>, combined: seq<Backend>, models: set<nat>) {
    Distinct(combined) && ModelsOf(routes, done, models) && BackendsOf(routes, done, combined) && Apart(routes, done)
  }

  method AppendAll(combined: seq<Backend>, backends: seq<Backend>) returns (r: Option<seq<Backend>>)
    requires Distinct(combined) && Distinct(backends)
    ensures r.Some? <==> Ids(combined) !! Ids(backends)
    ensures r.Some? ==> r.value == combined + backends && Distinct(r.value)
  {
    var sum, seen := combined, Ids(combined);
    for i := 0 to |backends|
      invariant sum == combined + backends[..i] && Distinct(sum)
      invariant seen == Ids(combined) + Ids(backends[..i]) && Ids(combined) !! Ids(backends[..i])
    {
      var b := backends[i];
      IdsMore(backends, i);
      if b.id in seen {
        assert b.id in Ids(backends);
        return None;
      }
      AppendDistinct(sum, b, seen);
      sum, seen := sum + [b], seen + {b.id};
      assert combined + backends[..i] + [b] == combined + backends[..i + 1];
    }
    assert backends[..|backends|] == backends;
    return Some(sum);
  }

  lemma IdsMore(bs: seq<Backend>, i: nat)
    requires i < |bs| && Distinct(bs)
    ensures Ids(bs[..i + 1]) == Ids(bs[..i]) + {bs[i].id} && bs[i].id !in Ids(bs[..i])
  {
    assert bs[..i + 1] == bs[..i] + [bs[i]];
  }

  lemma AppendDistinct(bs: seq<Backend>, b: Backend, seen: set<Id>)
    requires Distinct(bs) && b.id !in seen && forall i | 0 <= i < |bs| :: bs[i].id in seen
    ensures Distinct(bs + [b])
  {
  }

  lemma ModelsMore(routes: Routes, done: set<nat>, models: set<nat>, r: nat)
    requires ModelsOf(routes, done, models)
    ensures Live(routes, r) ==> ModelsOf(routes, done + {r}, models + {routes[r].model})
    ensures !Live(routes, r) ==> ModelsOf(routes, done + {r}, models)
  {
    var next := done + {r};
    forall m | m in models ensures exists x | x in next :: Live(routes, x) && routes[x].model == m {
      var x :| x in done && Live(routes, x) && routes[x].model == m;
      assert x in next;
    }
    assert r in next;
  }

  lemma BackendsMore(routes: Routes, done: set<nat>, combined: seq<Backend>, r: nat)
    requires BackendsOf(routes, done, combined)
    ensures Live(routes, r) ==> BackendsOf(routes, done + {r}, combined + routes[r].backends)
    ensures !Live(routes, r) ==> BackendsOf(routes, done + {r}, combined)
  {
    var next := done + {r};
    forall b | b in combined ensures exists x | x in next :: Live(routes, x) && b in routes[x].backends {
      var x :| x in done && Live(routes, x) && b in routes[x].backends;
      assert x in next;
    }
    assert r in next;
  }

  lemma ApartMore(routes: Routes, done: set<nat>, combined: seq<Backend>, models: set<nat>, r: nat)
    requires Gathered(routes, done, combined, models) && Live(routes, r)
    requires routes[r].model !in models && Ids(combined) !! Ids(routes[r].backends)
    ensures Apart(routes, done + {r})
  {
    forall x | x in done && Live(routes, x)
      ensures routes[x].model != routes[r].model && Ids(routes[x].backends) !! Ids(routes[r].backends)
    {
      forall i | 0 <= i < |routes[x].backends| ensures routes[x].backends[i].id in Ids(combined) {
        assert routes[x].backends[i] in combined;
        var j :| 0 <= j < |combined| && combined[j] == routes[x].backends[i];
      }
    }
  }

  lemma GatherMore(routes: Routes, done: set<nat>, combined: seq<Backend>, models: set<nat>, r: nat)
    requires Gathered(routes, done, combined, models) && Live(routes, r)
    requires routes[r].model !in models && Ids(combined) !! Ids(routes[r].backends)
    requires Distinct(combined + routes[r].backends)
    ensures Gathered(routes, done + {r}, combined + routes[r].backends, models + {routes[r].model})
  {
    ModelsMore(routes, done, models, r);
    BackendsMore(routes, done, combined, r);
    ApartMore(routes, done, combined, models, r);
  }

  lemma Clash(routes: Routes, done: set<nat>, combined: seq<Backend>, models: set<nat>, r: nat)
    requires Gathered(routes, done, combined, models) && Live(routes, r) && r !in done
    requires routes[r].model in models || !(Ids(combined) !! Ids(routes[r].backends))
    ensures !Compatible(routes)
  {
    if routes[r].model in models {
      var x :| x in done && Live(routes, x) && routes[x].model == routes[r].model;
    } else {
      var id :| id in Ids(combined) && id in Ids(routes[r].backends);
      var i :| 0 <= i < |combined| && combined[i].id == id;
      assert combined[i] in combined;
      var x :| x in done && Live(routes, x) && combined[i] in routes[x].backends;
      assert id in Ids(routes[x].backends);
    }
  }

  lemma GatheredAll(routes: Routes, combined: seq<Backend>, models: set<nat>)
    requires Gathered(routes, routes.Keys, combined, models)
    ensures Compatible(routes) && Holds(routes, Table(combined))
  {
    forall r, i | Live(routes, r) && 0 <= i < |routes[r].backends|
      ensures var b := routes[r].backends[i]; b.id in Table(combined) && Table(combined)[b.id] == b
    {
      var b := routes[r].backends[i];
      assert b in combined;
      var j :| 0 <= j < |combined| && combined[j] == b;
      TableOf(combined, j);
    }
    forall id | id in Table(combined)
      ensures Table(combined)[id].id == id
      ensures exists r | r in routes :: Live(routes, r) && Table(combined)[id] in routes[r].backends
    {
      TableFrom(combined, id);
    }
  }

  /** The backend set of all live routes, unless two of them clash. */
  method Combined(routes: Routes, static': seq<Backend>) returns (r: Option<seq<Backend>>)
    requires Distinct(static') && forall x | x in routes :: Proper(routes[x])
    ensures r.Some? <==> !AnyLive(routes) || Compatible(routes)
    ensures r.Some? ==> Distinct(r.value) && Expected(routes, static', Table(r.value))
  {
    if !AnyLive(routes) { return Some(static'); }
    var combined, models, left := [], {}, routes.Keys;
    ghost var done: set<nat> := {};
    while left != {}
      invariant left !! done && left + done == routes.Keys && Gathered(routes, done, combined, models)
      decreases left
    {
      var x :| x in left;
      left := left - {x};
      if routes[x].deleted {
        SkipDeleted(routes, done, combined, models, x);
      } else {
        if routes[x].model in models {
          Clash(routes, done, combined, models, x);
          return None;
        }
        var sum := AppendAll(combined, routes[x].backends);
        if sum.None? {
          Clash(routes, done, combined, models, x);
          return None;
        }
        GatherMore(routes, done, combined, models, x);
        combined, models := sum.value, models + {routes[x].model};
      }
      done := done + {x};
    }
    assert done == routes.Keys;
    GatheredAll(routes, combined, models);
    return Some(combined);
  }

  lemma SkipDeleted(routes: Routes, done: set<nat>, combined: seq<Backend>, models: set<nat>, r: nat)
    requires Gathered(routes, done, combined, models) && r in routes && routes[r].deleted
    ensures Gathered(routes, done + {r}, combined, models)
  {
    ModelsMore(routes, done, models, r);
    BackendsMore(routes, done, combined, r);
  }

  /** The model was deleted: a route that named it is gone and none names it now. */
  predicate Refuses(routes: Routes, model: nat) {
    && (exists r | r in routes :: routes[r].model == model && routes[r].deleted)
    && (forall r | r in routes :: routes[r].model == model ==> routes[r].deleted)
  }

  /** A backend that a request for the model can be given. */
  predicate Candidate(p: Pool, id: Id, model: nat, excluded: set<Id>, now: int)
    requires Linked(p)
  {
    id in p.records && id !in excluded && Takes(Of(p, id), model, now)
  }

  /** Any of the candidates, if there is one. */
  method Choose(heap: seq<Record>, records: map<Id, Ref>, model: nat, excluded: set<Id>, now: int)
      returns (choice: Option<Id>)
    requires LinkedIn(heap, records)
    ensures choice.None? ==> forall id | id in records && id !in excluded :: !Takes(heap[records[id]], model, now)
    ensures choice.Some? ==> choice.value in records && choice.value !in excluded
                             && Takes(heap[records[choice.value]], model, now)
  {
    var candidates := set id | id in records && id !in excluded && Takes(heap[records[id]], model, now);
    if candidates == {} {
      assert forall id | id in records && id !in excluded && Takes(heap[records[id]], model, now) :: id in candidates;
      return None;
    }
    var id :| id in candidates;
    return Some(id);
  }

  predicate Takes(r: Record, model: nat, now: int) { Eligible(r, now) && Serves(r.backend, model) }

  /** The backend belongs to a live route of the model. */
  ghost predicate ServedByRoute(routes: Routes, b: Backend, model: nat) {
    exists r | r in routes :: Live(routes, r) && routes[r].model == model && b in routes[r].backends
  }

  /** No wildcard is left among the backends of live routes. */
  lemma LiveServes(routes: Routes, m: map<Id, Backend>, id: Id, model: nat)
    requires Holds(routes, m) && (forall r | r in routes :: Proper(routes[r])) && id in m && Serves(m[id], model)
    ensures ServedByRoute(routes, m[id], model)
  {
    var r :| r in routes && Live(routes, r) && m[id] in routes[r].backends;
    var i :| 0 <= i < |routes[r].backends| && routes[r].backends[i] == m[id];
  }

  class RouteRegistry {
    const static': seq<Backend>
    const pool: BackendPool
    var routes: Routes

    /** The active backends of the pool are those the routes ask for. */
    ghost predicate Valid()
      reads this, pool
    {
      && Distinct(static') && WellFormed(pool.View())
      && (forall r | r in routes :: Proper(routes[r]))
      && Expected(routes, static', Active(pool.View()))
    }

    /** `listed` is what the pool lists when the registry takes it over. */
    constructor (pool: BackendPool, listed: seq<Backend>)
      requires WellFormed(pool.View()) && Distinct(listed) && Table(listed) == Active(pool.View())
      ensures Valid() && this.pool == pool && routes == map[]
    {
      this.pool, static', routes := pool, listed, map[];
    }

    /** A rejected update changes nothing. While a route keeps its UID its
        generation does not fall and its deletion is final. */
    method Apply(route: nat, update: Snapshot) returns (r: Outcome)
      requires Valid() && Proper(update)
      modifies this`routes, pool
      ensures Valid()
      ensures r == old(Verdict(routes, route, update))
      ensures r.Applied? ==> routes == old(routes)[route := update]
      ensures !r.Applied? ==> routes == old(routes) && pool.View() == old(pool.View())
    {
      if route in routes {
        var existing := routes[route];
        if update.uid != existing.uid {
          if !existing.deleted { return UidConflict; }
        } else {
          if update.generation < existing.generation || (existing.deleted && !update.deleted) { return Outdated; }
          if update.generation == existing.generation && update.digest == existing.digest { return Unchanged; }
        }
      }
      var candidate := routes[route := update];
      var combined := Combined(candidate, static');
      if combined.None? { return Conflict; }
      ReplacedActive(pool.View(), combined.value, true);
      ReplacedPins(pool.View(), combined.value, true);
      var _ := pool.Replace(combined.value, true);
      routes := candidate;
      return Applied;
    }

    /** A lease for the model, unless it was deleted or no backend can take it. */
    method AcquireModel(model: nat, excluded: set<Id>, now: int) returns (lease: Option<(Id, nat)>)
      requires Valid()
      modifies pool
      ensures Valid()
      ensures var p := old(pool.View());
        && (lease.Some? <==> !Refuses(routes, model) && exists id :: Candidate(p, id, model, excluded, now))
        && (lease.Some? ==> && Candidate(p, lease.value.0, model, excluded, now)
                            && pool.View() == AcquireNext(p, lease.value.0, now) && lease.value.1 == p.nextLease + 1)
        && (lease.None? ==> pool.View() == p)
        && (lease.Some? && AnyLive(routes) ==> ServedByRoute(routes, Of(p, lease.value.0).backend, model))
    {
      if Refuses(routes, model) { return None; }
      ghost var p := pool.View();
      var id := Choose(pool.heap, pool.records, model, excluded, now);
      if id.None? { return None; }
      assert Candidate(p, id.value, model, excluded, now);
      if AnyLive(routes) { LiveServes(routes, Active(p), id.value, model); }
      var number := Take(id.value, now);
      return Some((id.value, number));
    }

    method Take(id: Id, now: int) returns (number: nat)
      requires Valid() && id in pool.records && Eligible(Of(pool.View(), id), now)
      modifies pool
      ensures Valid() && pool.View() == AcquireNext(old(pool.View()), id, now) && number == old(pool.nextLease) + 1
    {
      AcquireSame(pool.View(), id, now);
      var lease := pool.AcquireID(id, now);
      return lease.value;
    }
  }

  // A model that was deleted.

  /** An update that is applied and names the model in a live route. */
  ghost predicate Revives(routes: Routes, u: (nat, Snapshot), model: nat) {
    Verdict(routes, u.0, u.1).Applied? && !u.1.deleted && u.1.model == model
  }

  /** An update that is applied and puts another model in the place of the only
      route that remembers this one. */
  ghost predicate Forgets(routes: Routes, u: (nat, Snapshot), model: nat) {
    && Verdict(routes, u.0, u.1).Applied? && u.1.model != model
    && forall r | r in routes && routes[r].model == model && routes[r].deleted :: r == u.0
  }

  /** A deleted model stays refused exactly until an update revives or forgets it. */
  lemma RefusalEnds(routes: Routes, u: (nat, Snapshot), model: nat)
    requires Refuses(routes, model)
    ensures Refuses(AfterUpdate(routes, u), model) <==> !Revives(routes, u, model) && !Forgets(routes, u, model)
  {
    var after := AfterUpdate(routes, u);
    if Verdict(routes, u.0, u.1).Applied? {
      assert u.0 in after && after[u.0] == u.1;
      if u.1.model != model {
        if r :| r in routes && routes[r].model == model && routes[r].deleted && r != u.0 {
          assert after[r] == routes[r];
        } else {
          assert Forgets(routes, u, model);
        }
      }
    } else {
      assert after == routes;
    }
  }

  /** The run never revives or forgets the model. */
  ghost predicate Remembered(routes: Routes, updates: seq<(nat, Snapshot)>, model: nat)
    decreases |updates|
  {
    updates == []
    || (&& !Revives(routes, updates[0], model) && !Forgets(routes, updates[0], model)
        && Remembered(AfterUpdate(routes, updates[0]), updates[1..], model))
  }

  lemma {:induction false} DeletedStaysRefused(routes: Routes, updates: seq<(nat, Snapshot)>, model: nat)
    requires Refuses(routes, model) && Remembered(routes, updates, model)
    ensures Refuses(AfterUpdates(routes, updates), model)
    decreases |updates|
  {
    if updates != [] {
      RefusalEnds(routes, updates[0], model);
      DeletedStaysRefused(AfterUpdate(routes, updates[0]), updates[1..], model);
    }
  }

  /** A deletion can be forgotten: a route is made for model 1 and deleted, so
      that the model is refused; it comes back under a new UID with model 2 and
      is deleted again. Model 1 then has no live route and is not refused. */
  lemma ForgottenModel() returns (updates: seq<(nat, Snapshot)>)
    ensures |updates| == 4 && forall i | 0 <= i < |updates| :: Proper(updates[i].1)
    ensures Refuses(AfterUpdates(map[], updates[..2]), 1)
    ensures var after := AfterUpdates(map[], updates);
      !Refuses(after, 1) && forall r | r in after :: after[r].deleted
  {
    var one, gone := Snapshot(1, 1, 1, false, 1, []), Snapshot(1, 1, 2, true, 2, []);
    var two, left := Snapshot(2, 2, 1, false, 3, []), Snapshot(2, 2, 2, true, 4, []);
    updates := [(0, one), (0, gone), (0, two), (0, left)];
    assert updates[..2] == [(0, one), (0, gone)] && updates[2..] == [(0, two), (0, left)];
    OneRoute(map[], one);
    OneRoute(map[0 := one], gone);
    OneRoute(map[0 := gone], two);
    OneRoute(map[0 := two], left);
    TwoUpdates(map[], (0, one), (0, gone));
    TwoUpdates(map[0 := gone], (0, two), (0, left));
    UpdatesConcat(map[], updates[..2], updates[2..]);
    assert updates[..2] + updates[2..] == updates;
    assert map[0 := gone][0].model == 1 && map[0 := left][0].model == 2;
  }

  /** A registry of one route never finds a conflict. */
  lemma OneRoute(routes: Routes, s: Snapshot)
    requires routes.Keys <= {0}
    ensures !Verdict(routes, 0, s).Conflict? && routes[0 := s] == map[0 := s]
  {
  }

  lemma TwoUpdates(routes: Routes, u: (nat, Snapshot), w: (nat, Snapshot))
    ensures AfterUpdates(routes, [u, w]) == AfterUpdate(AfterUpdate(routes, u), w)
  {
    assert [u, w][1..] == [w] && [w][1..] == [];
    assert AfterUpdates(AfterUpdate(routes, u), [w]) == AfterUpdate(AfterUpdate(routes, u), w);
  }

  lemma {:induction false} UpdatesConcat(routes: Routes, a: seq<(nat, Snapshot)>, b: seq<(nat, Snapshot)>)
    ensures AfterUpdates(routes, a + b) == AfterUpdates(AfterUpdates(routes, a), b)
    decreases |a|
  {
    if a == [] {
      assert a + b == b;
    } else {
      assert (a + b)[1..] == a[1..] + b;
      UpdatesConcat(AfterUpdate(routes, a[0]), a[1..], b);
    }
  }

  ghost function Verdict(routes: Routes, route: nat, update: Snapshot): Outcome {
    var candidate := routes[route := update];
    if route in routes && update.uid != routes[route].uid && !routes[route].deleted then UidConflict
    else if route in routes && update.uid == routes[route].uid
            && (update.generation < routes[route].generation || (routes[route].deleted && !update.deleted))
         then Outdated
    else if route in routes && update.uid == routes[route].uid
            && update.generation == routes[route].generation && update.digest == routes[route].digest then Unchanged
    else if AnyLive(candidate) && !Compatible(candidate) then Conflict
    else Applied
  }

  /** Replacement forgets no pinned record. */
  lemma ReplacedPins(p: Pool, bs: seq<Backend>, admitNew: bool)
    requires WellFormed(p)
    ensures Linked(Replaced(p, bs, admitNew)) ==> WellFormed(Replaced(p, bs, admitNew))
  {
    AdmittedAllHeap(p, bs, admitNew);
  }

  lemma {:induction false} AdmittedAllHeap(p: Pool, bs: seq<Backend>, admitNew: bool)
    requires Linked(p)
    ensures |p.heap| <= |AdmittedAll(p, bs, admitNew).heap| && AdmittedAll(p, bs, admitNew).pins == p.pins
    decreases |bs|
  {
    if bs != [] {
      AdmittedLinked(p, bs[0], admitNew);
      AdmittedAllHeap(Admitted(p, bs[0], admitNew), bs[1..], admitNew);
    }
  }

  /** While its UID stays, a route's generation never falls and a deleted route
      stays deleted, whatever updates come. */
  lemma {:induction false} RouteHistory(routes: Routes, updates: seq<(nat, Snapshot)>, route: nat)
    requires route in routes
    ensures var last := AfterUpdates(routes, updates);
      route in last && (OneUid(routes, updates, route) ==>
        && last[route].uid == routes[route].uid && routes[route].generation <= last[route].generation
        && (routes[route].deleted ==> last[route].deleted))
    decreases |updates|
  {
    if updates != [] {
      RouteHistory(AfterUpdate(routes, updates[0]), updates[1..], route);
    }
  }

  ghost function AfterUpdate(routes: Routes, u: (nat, Snapshot)): Routes {
    if Verdict(routes, u.0, u.1).Applied? then routes[u.0 := u.1] else routes
  }

  ghost function AfterUpdates(routes: Routes, updates: seq<(nat, Snapshot)>): Routes
    decreases |updates|
  {
    if updates == [] then routes else AfterUpdates(AfterUpdate(routes, updates[0]), updates[1..])
  }

  ghost predicate OneUid(routes: Routes, updates: seq<(nat, Snapshot)>, route: nat)
    requires route in routes
  {
    forall i | 0 <= i < |updates| && updates[i].0 == route :: updates[i].1.uid == routes[route].uid
  }
}
