/** One stream in Redis: the atomic scripts that open, append to, close and
    degrade it, and what they keep true of the stored keys. */
module RedisLog {
  import opened Options

  datatype Kind = KOpen | KChunk | KDone | KError | KStopped

  datatype Status = Open | Done | Error | Stopped

  predicate Final(k: Kind) { k.KDone? || k.KError? || k.KStopped? }

  function StatusFor(k: Kind): Status {
    if k.KDone? then Done else if k.KStopped? then Stopped else Error
  }

  /** `writer` is the nonce of the operation that wrote the entry. */
  datatype Event = Event(at: nat, kind: Kind, payload: nat, writer: nat)

  datatype Hash = Hash(last: nat, status: Status, degraded: bool, opener: nat)

  datatype Receipt = Appended(at: nat) | Closed(at: nat) | Marked(changed: nat)

  datatype Reply =
    | Ok(result: nat) | NonceConflict | Expired | NotFound | OffsetExpired | Degraded | Terminal | AlreadyExists

  /** Keys that have expired are absent. `history` is every entry ever written. */
  datatype Server = Server(hash: Option<Hash>, events: Option<seq<Event>>, tombstone: bool,
                           receipts: map<nat, Receipt>, history: seq<Event>)

  /** Why a script writes nothing. */
  function Refusal(s: Server, sealed: bool): Option<Reply> {
    if s.hash.None? then Some(if s.tombstone then Expired else NotFound)
    else if s.events.None? then Some(OffsetExpired)
    else if sealed && s.hash.value.degraded then Some(Degraded)
    else if !s.hash.value.status.Open? then Some(Terminal)
    else None
  }

  function Touched(s: Server): Server {
    if s.hash.Some? && s.hash.value.status.Open? then s.(tombstone := true) else s
  }

  function Written(s: Server, e: Event, h: Hash, nonce: nat, r: Receipt): Server
    requires s.events.Some?
  {
    s.(events := Some(s.events.value + [e]), hash := Some(h), tombstone := true,
       receipts := s.receipts[nonce := r], history := s.history + [e])
  }

  function AppendScript(s: Server, nonce: nat, kind: Kind, payload: nat): (Server, Reply) {
    if nonce in s.receipts then
      if s.receipts[nonce].Appended? then (Touched(s), Ok(s.receipts[nonce].at)) else (s, NonceConflict)
    else if Refusal(s, true).Some? then (s, Refusal(s, true).value)
    else
      var at := s.hash.value.last + 1;
      (Written(s, Event(at, kind, payload, nonce), s.hash.value.(last := at), nonce, Appended(at)), Ok(at))
  }

  function CloseScript(s: Server, nonce: nat, kind: Kind, payload: nat): (Server, Reply) {
    if nonce in s.receipts then
      if s.receipts[nonce].Closed? then (Touched(s), Ok(s.receipts[nonce].at)) else (s, NonceConflict)
    else if Refusal(s, true).Some? then (s, Refusal(s, true).value)
    else
      var at := s.hash.value.last + 1;
      (Written(s, Event(at, kind, payload, nonce), s.hash.value.(last := at, status := StatusFor(kind)),
               nonce, Closed(at)), Ok(at))
  }

  function DegradeScript(s: Server, nonce: nat): (Server, Reply) {
    if nonce in s.receipts then
      if s.receipts[nonce].Marked? then (Touched(s), Ok(s.receipts[nonce].changed)) else (s, NonceConflict)
    else if Refusal(s, false).Some? then (s, Refusal(s, false).value)
    else
      var changed := if s.hash.value.degraded then 0 else 1;
      (s.(hash := Some(s.hash.value.(degraded := true)), tombstone := true,
          receipts := s.receipts[nonce := Marked(changed)]), Ok(changed))
  }

  function OpenScript(s: Server, nonce: nat, payload: nat): (Server, Reply) {
    if s.hash.Some? then
      if s.hash.value.opener == nonce then
        if s.events.None? then (s, OffsetExpired) else (s.(tombstone := true), Ok(1))
      else (s, AlreadyExists)
    else if s.events.Some? || s.tombstone then (s, AlreadyExists)
    else
      var e := Event(1, KOpen, payload, nonce);
      (s.(hash := Some(Hash(1, Open, false, nonce)), events := Some([e]), tombstone := true,
          history := s.history + [e]), Ok(1))
  }

  class RedisStream {
    var hash: Option<Hash>
    var events: Option<seq<Event>>
    var tombstone: bool
    var receipts: map<nat, Receipt>
    ghost var history: seq<Event>

    ghost function View(): Server
      reads this
    {
      Server(hash, events, tombstone, receipts, history)
    }

    method Append(nonce: nat, kind: Kind, payload: nat) returns (r: Reply)
      modifies this
      ensures (View(), r) == AppendScript(old(View()), nonce, kind, payload)
    {
      if nonce in receipts {
        if !receipts[nonce].Appended? { return NonceConflict; }
        if hash.Some? && hash.value.status.Open? { tombstone := true; }
        return Ok(receipts[nonce].at);
      }
      if hash.None? {
        if tombstone { return Expired; }
        return NotFound;
      }
      if events.None? { return OffsetExpired; }
      if hash.value.degraded { return Degraded; }
      if !hash.value.status.Open? { return Terminal; }
      var at := hash.value.last + 1;
      events := Some(events.value + [Event(at, kind, payload, nonce)]);
      history := history + [Event(at, kind, payload, nonce)];
      hash := Some(hash.value.(last := at));
      receipts := receipts[nonce := Appended(at)];
      tombstone := true;
      return Ok(at);
    }

    method Close(nonce: nat, kind: Kind, payload: nat) returns (r: Reply)
      modifies this
      ensures (View(), r) == CloseScript(old(View()), nonce, kind, payload)
    {
      if nonce in receipts {
        if !receipts[nonce].Closed? { return NonceConflict; }
        if hash.Some? && hash.value.status.Open? { tombstone := true; }
        return Ok(receipts[nonce].at);
      }
      if hash.None? {
        if tombstone { return Expired; }
        return NotFound;
      }
      if events.None? { return OffsetExpired; }
      if hash.value.degraded { return Degraded; }
      if !hash.value.status.Open? { return Terminal; }
      var at := hash.value.last + 1;
      events := Some(events.value + [Event(at, kind, payload, nonce)]);
      history := history + [Event(at, kind, payload, nonce)];
      hash := Some(hash.value.(last := at, status := StatusFor(kind)));
      receipts := receipts[nonce := Closed(at)];
      tombstone := true;
      return Ok(at);
    }
  }

  /** Entries 1, 2, ... with the open entry first and a terminal entry, if any, last. */
  predicate Log(events: seq<Event>) {
    && events != [] && events[0].kind.KOpen?
    && (forall i | 0 <= i < |events| :: events[i].at == i + 1)
    && (forall i | 0 <= i < |events| - 1 :: !Final(events[i].kind))
  }

  /** The events are a log, and where neither key has expired the hash describes it. */
  predicate Stored(s: Server) {
    && (s.events.Some? ==> Log(s.events.value))
    && (s.hash.Some? && s.events.Some? ==> Describes(s.hash.value, s.events.value))
  }

  predicate Describes(h: Hash, events: seq<Event>)
    requires events != []
  {
    var newest := events[|events| - 1].kind;
    && h.last == |events|
    && (if Final(newest) then h.status == StatusFor(newest) && !h.degraded else h.status.Open?)
  }

  /** What a state read demands of the keys it found; it trusts nothing. */
  predicate RetainedBounds(h: Hash, earliest: nat, length: nat, first: Option<Event>, last: Option<Event>) {
    && earliest > 0 && h.last >= earliest
    && length == h.last - earliest + 1 && first.Some? && last.Some?
    && first.value.at == earliest && last.value.at == h.last
    && (earliest == 1 ==> first.value.kind.KOpen?)
    && (if h.status.Open? then !Final(last.value.kind)
        else Final(last.value.kind) && StatusFor(last.value.kind) == h.status)
    && (h.degraded ==> h.status.Open?)
  }

  lemma StoredPasses(s: Server)
    requires Stored(s) && s.hash.Some? && s.events.Some?
    ensures var es := s.events.value;
      es != [] && RetainedBounds(s.hash.value, 1, |es|, Some(es[0]), Some(es[|es| - 1]))
  {
  }
}
