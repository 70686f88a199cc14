/** Calls against a Redis stream when requests and replies get lost: every
    replica's calls interleave, each is sent at most twice under one nonce, a
    request that was sent may execute late, and keys expire at any time, except
    that a receipt outlives its own call. */
module RedisCalls {
  import opened Options
  import opened RedisLog

  datatype Request =
    | Opening(payload: nat) | Appending(kind: Kind, payload: nat) | Closing(kind: Kind, payload: nat) | Degrading

  datatype Call = Call(request: Request, sends: nat, pending: nat, replies: seq<Reply>, over: bool, result: Option<nat>)

  datatype State = State(server: Server, calls: map<nat, Call>)

  datatype Action =
    | Begin(nonce: nat, request: Request) | Send(nonce: nat) | Drop(nonce: nat) | Execute(nonce: nat)
    | Receive(nonce: nat, reply: nat) | Reconcile(nonce: nat) | Fail(nonce: nat)
    | ExpireHash | ExpireEvents | ExpireTombstone | ExpireReceipt(nonce: nat)

  function Init(): State { State(Server(None, None, false, map[], []), map[]) }

  predicate Proper(r: Request) {
    && (r.Appending? ==> r.kind.KChunk?)
    && (r.Closing? ==> Final(r.kind))
  }

  function Script(s: Server, nonce: nat, r: Request): (Server, Reply) {
    match r
    case Opening(payload) => OpenScript(s, nonce, payload)
    case Appending(kind, payload) => AppendScript(s, nonce, kind, payload)
    case Closing(kind, payload) => CloseScript(s, nonce, kind, payload)
    case Degrading => DegradeScript(s, nonce)
  }

  predicate Answers(receipt: Receipt, r: Request) {
    (receipt.Appended? && r.Appending?) || (receipt.Closed? && r.Closing?) || (receipt.Marked? && r.Degrading?)
  }

  function ResultOf(receipt: Receipt): nat {
    match receipt case Appended(at) => at case Closed(at) => at case Marked(changed) => changed
  }

  function SetCall(s: State, nonce: nat, c: Call): State { s.(calls := s.calls[nonce := c]) }

  /** A call's script has run. */
  function Executed(s: State, n: nat, c: Call, server: Server, reply: Reply): State
    requires c.pending > 0
  {
    SetCall(s.(server := server), n, c.(pending := c.pending - 1, replies := c.replies + [reply]))
  }

  function Step(s: State, a: Action): Option<State> {
    match a
    case Begin(n, request) =>
      if n !in s.calls && Proper(request) then Some(SetCall(s, n, Call(request, 0, 0, [], false, None))) else None
    case ExpireHash => Some(s.(server := s.server.(hash := None)))
    case ExpireEvents => Some(s.(server := s.server.(events := None)))
    case ExpireTombstone => Some(s.(server := s.server.(tombstone := false)))
    case _ => if a.nonce in s.calls then CallStep(s, a, s.calls[a.nonce]) else None
  }

  function CallStep(s: State, a: Action, c: Call): Option<State>
    requires !a.ExpireHash? && !a.ExpireEvents? && !a.ExpireTombstone?
  {
    var n := a.nonce;
    match a
    case Send(_) =>
      if !c.over && c.sends < 2 then Some(SetCall(s, n, c.(sends := c.sends + 1, pending := c.pending + 1))) else None
    case Drop(_) => if c.pending > 0 then Some(SetCall(s, n, c.(pending := c.pending - 1))) else None
    case Execute(_) =>
      if c.pending > 0
      then var (server, reply) := Script(s.server, n, c.request);
           Some(Executed(s, n, c, server, reply))
      else None
    case Receive(_, i) =>
      if !c.over && i < |c.replies|
      then Some(SetCall(s, n, c.(over := true, result := if c.replies[i].Ok? then Some(c.replies[i].result) else None)))
      else None
    case Reconcile(_) =>
      if !c.over && n in s.server.receipts && Answers(s.server.receipts[n], c.request)
      then Some(SetCall(s, n, c.(over := true, result := Some(ResultOf(s.server.receipts[n]))))) else None
    case Fail(_) => if !c.over then Some(SetCall(s, n, c.(over := true))) else None
    case ExpireReceipt(_) =>
      if c.over && c.pending == 0 then Some(s.(server := s.server.(receipts := s.server.receipts - {n}))) else None
    case _ => None
  }

  ghost predicate Reached(s: State, acts: seq<Action>, t: State)
    decreases |acts|
  {
    if acts == [] then s == t else Step(s, acts[0]).Some? && Reached(Step(s, acts[0]).value, acts[1..], t)
  }

  // What the runs keep.

  predicate Live(c: Call) { c.pending > 0 || !c.over }

  predicate Matches(r: Request, e: Event) {
    match r
    case Opening(payload) => e.kind.KOpen? && e.payload == payload
    case Appending(kind, payload) => e.kind == kind && e.payload == payload
    case Closing(kind, payload) => e.kind == kind && e.payload == payload
    case Degrading => false
  }

  /** The history holds an entry of this call at that sequence number. */
  ghost predicate Wrote(history: seq<Event>, n: nat, r: Request, at: nat) {
    exists e | e in history :: e.writer == n && e.at == at && Matches(r, e)
  }

  predicate Writes(r: Request) { r.Appending? || r.Closing? }

  /** No two appended or closing entries come from one call. */
  predicate Once(history: seq<Event>) {
    forall i, j | 0 <= i < j < |history| && !history[i].kind.KOpen? && !history[j].kind.KOpen? ::
      history[i].writer != history[j].writer
  }

  ghost predicate Known(s: State) {
    forall e | e in s.server.history ::
      && e.writer in s.calls && Matches(s.calls[e.writer].request, e)
      && (!e.kind.KOpen? && Live(s.calls[e.writer]) ==> e.writer in s.server.receipts)
  }

  ghost predicate Honest(s: State, n: nat, c: Call) {
    && Proper(c.request)
    && (n in s.server.receipts ==>
          && Answers(s.server.receipts[n], c.request)
          && (Writes(c.request) ==> Wrote(s.server.history, n, c.request, ResultOf(s.server.receipts[n]))))
    && (Writes(c.request) ==>
          && (forall i | 0 <= i < |c.replies| && c.replies[i].Ok? ::
                Wrote(s.server.history, n, c.request, c.replies[i].result))
          && (c.result.Some? ==> Wrote(s.server.history, n, c.request, c.result.value)))
    && (forall i | 0 <= i < |c.replies| :: !c.replies[i].NonceConflict?)
  }

  ghost predicate Inv(s: State) {
    && Stored(s.server) && Once(s.server.history) && Known(s)
    && (forall n | n in s.calls :: Honest(s, n, s.calls[n]))
    && (forall n | n in s.server.receipts :: n in s.calls)
  }

  lemma WroteMore(history: seq<Event>, e: Event, n: nat, r: Request, at: nat)
    requires Wrote(history, n, r, at)
    ensures Wrote(history + [e], n, r, at)
  {
    var x :| x in history && x.writer == n && x.at == at && Matches(r, x);
    assert x in history + [e];
  }

  /** A script writes nothing, or exactly one entry of its own with a receipt for it. */
  ghost predicate Effect(s: Server, n: nat, r: Request, t: Server, reply: Reply) {
    if t.history == s.history then
      && (t.receipts == s.receipts
          || (r.Degrading? && n !in s.receipts && n in t.receipts && t.receipts == s.receipts[n := t.receipts[n]]
              && t.receipts[n].Marked?))
      && (Writes(r) && reply.Ok? ==>
            n in s.receipts && Answers(s.receipts[n], r) && reply.result == ResultOf(s.receipts[n]))
      && (reply.NonceConflict? ==> n in s.receipts && !Answers(s.receipts[n], r))
    else
      && reply.Ok? && |t.history| == |s.history| + 1
      && var e := t.history[|s.history|];
         && t.history == s.history + [e] && e.writer == n && Matches(r, e)
         && if Writes(r)
            then && n !in s.receipts && n in t.receipts && t.receipts == s.receipts[n := t.receipts[n]]
                 && Answers(t.receipts[n], r) && ResultOf(t.receipts[n]) == e.at == reply.result
            else r.Opening? && t.receipts == s.receipts
  }

  lemma ScriptEffect(s: Server, n: nat, r: Request)
    requires Stored(s) && Proper(r)
    ensures var (t, reply) := Script(s, n, r); Stored(t) && Effect(s, n, r, t, reply)
  {
    var (t, reply) := Script(s, n, r);
    if t.history != s.history { assert t.history[|s.history|].writer == n; }
  }

  /** Nothing about a call depends on the other calls or on later entries. */
  lemma HonestLater(s: State, t: State, n: nat, c: Call)
    requires Honest(s, n, c)
    requires s.server.history == t.server.history
             || exists e :: t.server.history == s.server.history + [e]
    requires n in t.server.receipts ==> n in s.server.receipts && s.server.receipts[n] == t.server.receipts[n]
    ensures Honest(t, n, c)
  {
    if s.server.history != t.server.history {
      var e :| t.server.history == s.server.history + [e];
      forall at | Wrote(s.server.history, n, c.request, at) ensures Wrote(t.server.history, n, c.request, at) {
        WroteMore(s.server.history, e, n, c.request, at);
      }
    }
  }

  lemma OnceMore(s: State, e: Event)
    requires Once(s.server.history) && Known(s) && e.writer in s.calls && Live(s.calls[e.writer])
    requires e.kind.KOpen? || e.writer !in s.server.receipts
    ensures Once(s.server.history + [e])
  {
    forall i | 0 <= i < |s.server.history| ensures s.server.history[i] in s.server.history {}
  }

  lemma ExecuteKeeps(s: State, n: nat, t: State)
    requires Inv(s) && Step(s, Execute(n)) == Some(t)
    ensures Inv(t)
  {
    var c := s.calls[n];
    var (server, reply) := Script(s.server, n, c.request);
    assert Honest(s, n, c);
    ScriptEffect(s.server, n, c.request);
    if server.history != s.server.history {
      OnceMore(s, server.history[|s.server.history|]);
    }
    ExecutedKnown(s, n, server, reply);
    forall x | x in s.calls && x != n ensures Honest(t, x, t.calls[x]) {
      HonestLater(s, t, x, s.calls[x]);
    }
    ExecutedHonest(s, n, server, reply);
  }

  lemma ExecutedKnown(s: State, n: nat, server: Server, reply: Reply)
    requires Known(s) && n in s.calls && s.calls[n].pending > 0
    requires Effect(s.server, n, s.calls[n].request, server, reply)
    ensures Known(Executed(s, n, s.calls[n], server, reply))
  {
  }

  lemma ExecutedHonest(s: State, n: nat, server: Server, reply: Reply)
    requires n in s.calls && s.calls[n].pending > 0 && Honest(s, n, s.calls[n])
    requires Effect(s.server, n, s.calls[n].request, server, reply)
    ensures var t := Executed(s, n, s.calls[n], server, reply); Honest(t, n, t.calls[n])
  {
    var c := s.calls[n];
    if server.history != s.server.history {
      var e := server.history[|s.server.history|];
      assert e in server.history;
      forall at | Wrote(s.server.history, n, c.request, at) ensures Wrote(server.history, n, c.request, at) {
        WroteMore(s.server.history, e, n, c.request, at);
      }
    }
  }

  /** Steps of the client alone. */
  lemma ClientKeeps(s: State, a: Action, t: State)
    requires Inv(s) && Step(s, a) == Some(t)
    requires a.Begin? || a.Send? || a.Drop? || a.Receive? || a.Reconcile? || a.Fail?
    ensures Inv(t)
  {
    if a.nonce in s.calls { assert Honest(s, a.nonce, s.calls[a.nonce]); }
    forall x | x in s.calls && x != a.nonce ensures Honest(t, x, t.calls[x]) { HonestLater(s, t, x, s.calls[x]); }
  }

  lemma ExpiryKeeps(s: State, a: Action, t: State)
    requires Inv(s) && Step(s, a) == Some(t)
    requires a.ExpireHash? || a.ExpireEvents? || a.ExpireTombstone? || a.ExpireReceipt?
    ensures Inv(t)
  {
    forall x | x in s.calls ensures Honest(t, x, t.calls[x]) { HonestLater(s, t, x, s.calls[x]); }
  }

  lemma {:induction false} RunKeeps(s: State, acts: seq<Action>, t: State)
    requires Inv(s) && Reached(s, acts, t)
    ensures Inv(t)
    decreases |acts|
  {
    if acts != [] {
      var a, next := acts[0], Step(s, acts[0]).value;
      match a {
        case Execute(n) => ExecuteKeeps(s, n, next);
        case ExpireHash | ExpireEvents | ExpireTombstone | ExpireReceipt(_) => ExpiryKeeps(s, a, next);
        case _ => ClientKeeps(s, a, next);
      }
      RunKeeps(next, acts[1..], t);
    }
  }

  /** In every run: one append or close adds at most one entry however often it
      is sent and executed; a number that it returns is the number of that very
      entry; and no nonce meets a receipt of another operation. */
  lemma ExactlyOnce(acts: seq<Action>, s: State, n: nat)
    requires Reached(Init(), acts, s) && n in s.calls && Writes(s.calls[n].request)
    ensures forall i, j | 0 <= i < j < |s.server.history| && s.server.history[i].writer == n ::
              s.server.history[j].writer != n
    ensures s.calls[n].result.Some? ==>
            exists e | e in s.server.history ::
              e.writer == n && e.at == s.calls[n].result.value && Matches(s.calls[n].request, e)
    ensures NonceConflict !in s.calls[n].replies
  {
    RunKeeps(Init(), acts, s);
    assert Honest(s, n, s.calls[n]);
    forall i | 0 <= i < |s.server.history| && s.server.history[i].writer == n
      ensures !s.server.history[i].kind.KOpen?
    {
      assert s.server.history[i] in s.server.history;
    }
  }

  /** Every state in which neither key has expired passes the retained-bounds check. */
  lemma ReachablePasses(acts: seq<Action>, s: State)
    requires Reached(Init(), acts, s) && s.server.hash.Some? && s.server.events.Some?
    ensures var es := s.server.events.value;
      Log(es) && RetainedBounds(s.server.hash.value, 1, |es|, Some(es[0]), Some(es[|es| - 1]))
  {
    RunKeeps(Init(), acts, s);
    StoredPasses(s.server);
  }

  /** The events never expire along this run. */
  ghost predicate Retained(s: State, acts: seq<Action>)
    decreases |acts|
  {
    s.server.events.Some? && (acts != [] && Step(s, acts[0]).Some? ==> Retained(Step(s, acts[0]).value, acts[1..]))
  }

  /** As long as they have not expired, the events that one read finds begin
      with those that an earlier read found. */
  lemma {:induction false} EventsGrow(s: State, acts: seq<Action>, t: State)
    requires Reached(s, acts, t) && Retained(s, acts)
    ensures s.server.events.Some? && t.server.events.Some? && s.server.events.value <= t.server.events.value
    decreases |acts|
  {
    if acts != [] {
      var next := Step(s, acts[0]).value;
      EventsGrow(next, acts[1..], t);
    }
  }

  /** The stream is marked as degraded, and stays so along this run. */
  ghost predicate Sealed(s: State, acts: seq<Action>)
    decreases |acts|
  {
    && s.server.hash.Some?
    && (acts != [] && Step(s, acts[0]).Some? ==> Sealed(Step(s, acts[0]).value, acts[1..]))
  }

  /** Once marked, nothing is written any more for as long as the mark is kept. */
  lemma {:induction false} DegradedWritesNothing(s: State, acts: seq<Action>, t: State)
    requires Reached(s, acts, t) && Sealed(s, acts) && s.server.hash.value.degraded
    ensures t.server.history == s.server.history && t.server.hash.Some? && t.server.hash.value.degraded
    decreases |acts|
  {
    if acts != [] {
      var next := Step(s, acts[0]).value;
      DegradedWritesNothing(next, acts[1..], t);
    }
  }

  lemma {:induction false} SealedUntilExpiry(s: State, acts: seq<Action>, t: State)
    requires Reached(s, acts, t) && s.server.hash.Some? && ExpireHash !in acts
    ensures Sealed(s, acts)
    decreases |acts|
  {
    if acts != [] {
      assert acts[0] in acts && forall a | a in acts[1..] :: a in acts;
      SealedUntilExpiry(Step(s, acts[0]).value, acts[1..], t);
    }
  }

  /** Something tells the caller of this mark that it was made. */
  ghost predicate Evident(s: State, n: nat) {
    && n in s.calls && s.calls[n].request.Degrading?
    && (n in s.server.receipts || s.calls[n].result.Some? || exists r | r in s.calls[n].replies :: r.Ok?)
  }

  predicate IsMarked(s: Server) { s.hash.Some? && s.hash.value.degraded }

  lemma EvidentExecuted(s: State, n: nat, x: nat, t: State)
    requires Step(s, Execute(x)) == Some(t) && !Evident(s, n) && Evident(t, n)
    ensures IsMarked(t.server)
  {
    if x != n {
      ReceiptsElsewhere(s.server, x, s.calls[x].request, n);
    } else {
      var c, reply := s.calls[n], Script(s.server, n, s.calls[n].request).1;
      assert t.calls[n].replies == c.replies + [reply];
    }
  }

  lemma ReceiptsElsewhere(s: Server, x: nat, r: Request, n: nat)
    requires n != x
    ensures n in Script(s, x, r).0.receipts <==> n in s.receipts
  {
  }

  lemma EvidentTold(s: State, a: Action, n: nat, t: State)
    requires Inv(s) && Step(s, a) == Some(t) && !a.Execute? && !Evident(s, n)
    ensures !Evident(t, n)
  {
    if n in s.calls && a.Receive? && a.nonce == n && a.reply < |s.calls[n].replies| {
      assert s.calls[n].replies[a.reply] in s.calls[n].replies;
    }
  }

  lemma {:induction false} MarkPoint(s: State, acts: seq<Action>, t: State, n: nat) returns (k: nat, m: State)
    requires Inv(s) && Reached(s, acts, t) && !Evident(s, n) && Evident(t, n)
    ensures k <= |acts| && Reached(s, acts[..k], m) && Reached(m, acts[k..], t) && IsMarked(m.server)
    decreases |acts|
  {
    var next := Step(s, acts[0]).value;
    if acts[0].Execute? && Evident(next, n) {
      EvidentExecuted(s, n, acts[0].nonce, next);
      k, m := 1, next;
      assert acts[..1] == [acts[0]] && acts[..1][1..] == [];
    } else {
      if !acts[0].Execute? { EvidentTold(s, acts[0], n, next); }
      RunKeeps(s, [acts[0]], next) by { assert [acts[0]][1..] == []; }
      k, m := MarkPoint(next, acts[1..], t, n);
      assert acts[..k + 1][1..] == acts[1..][..k] && acts[1..][k..] == acts[k + 1..];
      k := k + 1;
    }
  }

  /** A mark that its caller was told of, by a reply or by its receipt, was made:
      at some point of the run the stream is marked, and from there on it stays
      marked and takes no entry until the hash expires. */
  lemma DegradeMarks(acts: seq<Action>, t: State, n: nat) returns (k: nat, m: State)
    requires Reached(Init(), acts, t) && n in t.calls
    requires t.calls[n].request.Degrading? && t.calls[n].result.Some?
    ensures k <= |acts| && Reached(Init(), acts[..k], m) && Reached(m, acts[k..], t)
    ensures IsMarked(m.server)
    ensures ExpireHash !in acts[k..] ==> IsMarked(t.server) && t.server.history == m.server.history
  {
    k, m := MarkPoint(Init(), acts, t, n);
    if ExpireHash !in acts[k..] {
      SealedUntilExpiry(m, acts[k..], t);
      DegradedWritesNothing(m, acts[k..], t);
    }
  }
}
