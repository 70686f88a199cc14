/** Reader leases against orphan claims on one stream: a scored set of readers
    and a claim key, changed by atomic scripts under the server's clock. */
module Readers {
  import opened Options

  /** An identifier is opened once; without a state hash it is fresh or gone. */
  datatype Status = Fresh | Open | Closed | Gone

  predicate Absent(s: Status) { s.Fresh? || s.Gone? }

  datatype Claim = Claim(owner: nat, until: int)

  datatype Keys = Keys(now: int, status: Status, leases: map<nat, int>, claim: Option<Claim>)

  datatype Reply = Refused | No | Yes | Counted(n: nat)

  datatype Action =
    | Acquire(reader: nat, ttl: nat) | Refresh(reader: nat, ttl: nat) | Release(reader: nat) | Count
    | ClaimOrphan(owner: nat, ttl: nat) | ReleaseOrphan(owner: nat)
    | OpenStream | CloseStream | ExpireStream | ExpireLeases | Tick(to: int)

  /** A key past its expiry is not there. */
  predicate Claimed(k: Keys) { k.claim.Some? && k.now < k.claim.value.until }

  function Pruned(k: Keys): Keys {
    k.(leases := map r | r in k.leases && k.leases[r] > k.now :: k.leases[r])
  }

  function Leased(k: Keys, reader: nat, ttl: nat): Keys { k.(leases := k.leases[reader := k.now + ttl]) }

  function Script(k: Keys, a: Action): (Keys, Reply) {
    match a
    case Acquire(reader, ttl) =>
      if Absent(k.status) || (k.status.Open? && Claimed(k)) then (k, Refused)
      else (Leased(Pruned(k), reader, ttl), Yes)
    case Refresh(reader, ttl) =>
      if Absent(k.status) then (k, No)
      else if k.status.Open? && Claimed(k) then (k, Refused)
      else if reader !in Pruned(k).leases then (Pruned(k), No)
      else (Leased(Pruned(k), reader, ttl), Yes)
    case Release(reader) => (k.(leases := k.leases - {reader}), Yes)
    case Count => if Absent(k.status) then (k, Counted(0)) else (Pruned(k), Counted(|Pruned(k).leases|))
    case ClaimOrphan(owner, ttl) =>
      if !k.status.Open? then (k, Refused)
      else if Claimed(k) then
        if k.claim.value.owner == owner then (k.(claim := Some(Claim(owner, k.now + ttl))), Yes) else (k, Refused)
      else if |Pruned(k).leases| != 0 then (Pruned(k), No)
      else (Pruned(k).(claim := Some(Claim(owner, k.now + ttl))), Yes)
    case ReleaseOrphan(owner) =>
      if Absent(k.status) || !Claimed(k) || k.claim.value.owner != owner then (k, No) else (k.(claim := None), Yes)
    case OpenStream =>
      if k.status.Fresh? then (k.(status := Open), Yes) else (k, No)
    case CloseStream => if k.status.Open? then (k.(status := Closed), Yes) else (k, No)
    case ExpireStream => (k.(status := Gone), Yes)
    case ExpireLeases => (k.(leases := map[]), Yes)
    case Tick(to) => if k.now <= to then (k.(now := to), Yes) else (k, No)
  }

  function Run(k: Keys, acts: seq<Action>): Keys
    decreases |acts|
  {
    if acts == [] then k else Run(Script(k, acts[0]).0, acts[1..])
  }

  function Init(now: int): Keys { Keys(now, Fresh, map[], None) }

  /** No lease of an open stream is still running once the stream is claimed. */
  predicate Fenced(k: Keys) {
    && (k.status.Fresh? ==> k.leases == map[] && k.claim.None?)
    && (k.status.Open? && Claimed(k) ==> forall r | r in k.leases :: k.leases[r] <= k.now)
  }

  lemma ScriptFenced(k: Keys, a: Action)
    requires Fenced(k)
    ensures Fenced(Script(k, a).0)
  {
    if a.ClaimOrphan? && |Pruned(k).leases| == 0 {
      assert Pruned(k).leases == map[];
      forall r | r in k.leases ensures k.leases[r] <= k.now { assert r !in Pruned(k).leases; }
    }
  }

  /** In every run: while the stream is open, a live claim and an unexpired
      lease never exist together. */
  lemma NeverBoth(start: int, acts: seq<Action>, reader: nat)
    ensures var k := Run(Init(start), acts);
      !(k.status.Open? && Claimed(k) && reader in k.leases && k.leases[reader] > k.now)
  {
    RunFenced(Init(start), acts);
  }

  lemma {:induction false} RunFenced(k: Keys, acts: seq<Action>)
    requires Fenced(k)
    ensures Fenced(Run(k, acts))
    decreases |acts|
  {
    if acts != [] {
      ScriptFenced(k, acts[0]);
      RunFenced(Script(k, acts[0]).0, acts[1..]);
    }
  }
}
