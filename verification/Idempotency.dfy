/** The idempotency reservations in Redis: one key per request digest, and one
    key per stream identifier that leads back to the digest it was reserved
    for. Each script is atomic and a key may expire before any of them. */
module Idempotency {
  import opened Options

  type Digest = nat
  type Id = nat

  datatype Binding = Pending(id: Id, creator: nat) | Bound(id: Id)

  /** What happened to the bindings: a caller was told to create the stream, a
      stream was opened for the digest, a reservation or a binding went. */
  datatype Event =
    | Told(digest: Digest, creator: nat) | Opened(digest: Digest, id: Id)
    | Freed(digest: Digest) | Unbound(digest: Digest, id: Id)

  datatype Keys = Keys(bindings: map<Digest, Binding>, associations: map<Id, Digest>, streams: set<Id>,
                       past: seq<Event>)

  datatype Action =
    | Resolve(digest: Digest, id: Id, creator: nat) | RefreshPending(digest: Digest, id: Id)
    | ReleasePending(digest: Digest, id: Id) | OpenStream(id: Id, required: Option<Digest>)
    | RemoveIfBound(digest: Digest, id: Id)
    | DropBinding(digest: Digest) | ExpireAssociation(id: Id) | ExpireStream(id: Id)

  /** The stream a request is given, and whether it is the one to create it. */
  function Resolved(k: Keys, digest: Digest, id: Id, creator: nat): (Id, bool) {
    if digest in k.bindings
    then (k.bindings[digest].id, k.bindings[digest].Pending? && k.bindings[digest].creator == creator)
    else (id, true)
  }

  predicate Reserved(k: Keys, digest: Digest, id: Id) {
    && digest in k.bindings && k.bindings[digest].Pending? && k.bindings[digest].id == id
    && id in k.associations && k.associations[id] == digest
  }

  function Dropped(k: Keys, digest: Digest): Keys {
    if digest !in k.bindings then k
    else k.(bindings := k.bindings - {digest},
            past := k.past + [if k.bindings[digest].Bound? then Unbound(digest, k.bindings[digest].id)
                              else Freed(digest)])
  }

  /** The reservation that opening a stream would turn into its binding. */
  function Claim(k: Keys, id: Id): Option<Digest> {
    if id in k.associations && Reserved(k, k.associations[id], id) then Some(k.associations[id]) else None
  }

  predicate MayOpen(k: Keys, id: Id, required: Option<Digest>) {
    id !in k.streams && (required.Some? ==> Claim(k, id) == required)
  }

  function Next(k: Keys, a: Action): Keys {
    match a
    case Resolve(digest, id, creator) =>
      var t := if Resolved(k, digest, id, creator).1 then k.(past := k.past + [Told(digest, creator)]) else k;
      if digest in k.bindings then t
      else t.(bindings := k.bindings[digest := Pending(id, creator)], associations := k.associations[id := digest])
    case RefreshPending(_, _) => k
    case ReleasePending(digest, id) =>
      if Reserved(k, digest, id) then Dropped(k, digest).(associations := k.associations - {id}) else k
    case OpenStream(id, required) =>
      if !MayOpen(k, id, required) then k
      else
        var t := k.(streams := k.streams + {id}, associations := k.associations - {id});
        if Claim(k, id).None? then t
        else t.(bindings := k.bindings[Claim(k, id).value := Bound(id)],
                past := k.past + [Opened(Claim(k, id).value, id)])
    case RemoveIfBound(digest, id) =>
      if digest in k.bindings && k.bindings[digest] == Bound(id) then Dropped(k, digest) else k
    case DropBinding(digest) => Dropped(k, digest)
    case ExpireAssociation(id) => k.(associations := k.associations - {id})
    case ExpireStream(id) => k.(streams := k.streams - {id})
  }

  function Run(k: Keys, acts: seq<Action>): Keys
    decreases |acts|
  {
    if acts == [] then k else Run(Next(k, acts[0]), acts[1..])
  }

  function Empty(): Keys { Keys(map[], map[], {}, []) }

  /** What ends the hold of an event on its digest. */
  predicate Ends(e: Event, held: Event) {
    if held.Opened? then e == Unbound(held.digest, held.id)
    else (e.Freed? || e.Unbound?) && e.digest == held.digest
  }

  /** What the digest is bound to as long as that has not happened. */
  predicate Holds(k: Keys, held: Event) {
    && held.digest in k.bindings
    && (held.Opened? ==> k.bindings[held.digest] == Bound(held.id))
    && (held.Told? ==> k.bindings[held.digest].Bound? || k.bindings[held.digest].creator == held.creator)
  }

  predicate Holding(e: Event) { e.Opened? || e.Told? }

  ghost predicate EndedIn(past: seq<Event>, i: nat, j: nat)
    requires i < j <= |past|
  {
    exists m | i < m < j :: Ends(past[m], past[i])
  }

  ghost predicate Held(k: Keys, i: nat)
    requires i < |k.past|
  {
    EndedIn(k.past, i, |k.past|) || Holds(k, k.past[i])
  }

  /** Two events that cannot both stand. */
  predicate Rival(a: Event, b: Event) {
    a.digest == b.digest
    && (|| (a.Opened? && b.Opened? && a.id != b.id)
        || (a.Told? && b.Told? && a.creator != b.creator)
        || (a.Opened? && b.Told?))
  }

  ghost predicate Inv(k: Keys) {
    && (forall i | 0 <= i < |k.past| && Holding(k.past[i]) :: Held(k, i))
    && (forall i, j | 0 <= i < j < |k.past| && Rival(k.past[i], k.past[j]) :: EndedIn(k.past, i, j))
  }

  lemma EndedLater(past: seq<Event>, more: seq<Event>, i: nat, j: nat)
    requires i < j <= |past| && EndedIn(past, i, j)
    ensures EndedIn(past + more, i, j)
  {
    var m :| i < m < j && Ends(past[m], past[i]);
    assert Ends((past + more)[m], (past + more)[i]);
  }

  lemma PastGrows(k: Keys, a: Action) returns (more: seq<Event>)
    ensures Next(k, a).past == k.past + more && |more| <= 1
  {
    more := Next(k, a).past[|k.past|..];
  }

  /** An event keeps its hold, or the step just ended it. */
  lemma HeldNext(k: Keys, a: Action, i: nat)
    requires i < |k.past| && Holding(k.past[i]) && Held(k, i)
    ensures i < |Next(k, a).past| && Held(Next(k, a), i)
  {
    var t := Next(k, a);
    var more := PastGrows(k, a);
    assert t.past[i] == k.past[i];
    if EndedIn(k.past, i, |k.past|) {
      var m :| i < m < |k.past| && Ends(k.past[m], k.past[i]);
      assert Ends(t.past[m], t.past[i]);
    } else if more != [] && Ends(more[0], k.past[i]) {
      assert Ends(t.past[|k.past|], t.past[i]);
    } else {
      HoldsNext(k, a, k.past[i], more);
    }
  }

  lemma HoldsNext(k: Keys, a: Action, held: Event, more: seq<Event>)
    requires Holding(held) && Holds(k, held) && Next(k, a).past == k.past + more
    requires more != [] ==> !Ends(more[0], held)
    ensures Holds(Next(k, a), held)
  {
    var t := Next(k, a);
    if held.digest !in t.bindings || t.bindings[held.digest] != k.bindings[held.digest] {
      assert t.past[|k.past|] == more[0];
    }
  }

  /** A rival appears only after the hold it contradicts has ended. */
  lemma RivalNext(k: Keys, a: Action, i: nat)
    requires i < |k.past| && Held(k, i) && |Next(k, a).past| == |k.past| + 1
    requires Rival(k.past[i], Next(k, a).past[|k.past|])
    ensures EndedIn(k.past, i, |k.past|)
  {
  }

  lemma NextKeeps(k: Keys, a: Action)
    requires Inv(k)
    ensures Inv(Next(k, a))
  {
    var t := Next(k, a);
    var more := PastGrows(k, a);
    forall i | 0 <= i < |t.past| && Holding(t.past[i]) ensures Held(t, i) {
      if i < |k.past| { HeldNext(k, a, i); }
    }
    forall i, j | 0 <= i < j < |t.past| && Rival(t.past[i], t.past[j]) ensures EndedIn(t.past, i, j) {
      if j == |k.past| { RivalNext(k, a, i); }
      EndedLater(k.past, more, i, j);
    }
  }

  lemma {:induction false} RunKeeps(k: Keys, acts: seq<Action>)
    requires Inv(k)
    ensures Inv(Run(k, acts))
    decreases |acts|
  {
    if acts != [] {
      NextKeeps(k, acts[0]);
      RunKeeps(Next(k, acts[0]), acts[1..]);
    }
  }

  /** Two different streams opened for one digest: the binding of the first
      expired or was removed in between. */
  lemma OneStreamPerDigest(acts: seq<Action>, i: nat, j: nat)
    requires var past := Run(Empty(), acts).past;
      && i < j < |past| && past[i].Opened? && past[j].Opened?
      && past[i].digest == past[j].digest && past[i].id != past[j].id
    ensures var past := Run(Empty(), acts).past;
      exists m | i < m < j :: past[m] == Unbound(past[i].digest, past[i].id)
  {
    RunKeeps(Empty(), acts);
    var past := Run(Empty(), acts).past;
    assert EndedIn(past, i, j);
    var m :| i < m < j && Ends(past[m], past[i]);
  }

  /** Two different callers told to create the stream of one digest: what the
      first had reserved, or the stream opened from it, was given up in between.
      So it is if a caller is told so after a stream was opened. */
  lemma OneCreatorPerDigest(acts: seq<Action>, i: nat, j: nat)
    requires var past := Run(Empty(), acts).past;
      && i < j < |past| && past[j].Told? && past[i].digest == past[j].digest
      && (past[i].Opened? || (past[i].Told? && past[i].creator != past[j].creator))
    ensures var past := Run(Empty(), acts).past;
      exists m | i < m < j :: (past[m].Freed? || past[m].Unbound?) && past[m].digest == past[i].digest
  {
    RunKeeps(Empty(), acts);
    var past := Run(Empty(), acts).past;
    assert EndedIn(past, i, j);
    var m :| i < m < j && Ends(past[m], past[i]);
  }

  /** As long as its binding stands, every request with the digest is given the
      stream that was opened, and is not told to create one. */
  lemma ResolvesToOpened(acts: seq<Action>, i: nat, other: Id, creator: nat)
    requires var past := Run(Empty(), acts).past;
      i < |past| && past[i].Opened? && forall m | i < m < |past| :: past[m] != Unbound(past[i].digest, past[i].id)
    ensures var k := Run(Empty(), acts);
      Resolved(k, k.past[i].digest, other, creator) == (k.past[i].id, false)
  {
    RunKeeps(Empty(), acts);
    assert Held(Run(Empty(), acts), i);
  }
}
