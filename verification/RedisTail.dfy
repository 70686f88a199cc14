/** The Redis tail: it replays what the first read found, then follows the log
    one entry at a time, looking at the stream's state whenever a blocking read
    comes back empty. */
module RedisTail {
  import opened Options
  import opened RedisLog
  import opened RedisCalls
  import opened RedisReplay

  /** How a tail ends: refused at once, complete, at the gap of a degraded
      stream, because keys are gone, or because its reader left. */
  datatype End = Refused | Complete | Gap | Missing | Cancelled

  /** The events after `cursor` that one read finds. */
  predicate HasNext(s: Server, cursor: nat) { s.events.Some? && cursor < |s.events.value| }

  /** Everything the stream will ever hold has been sent. */
  predicate AllSent(whole: seq<Event>, cursor: nat) {
    cursor == |whole| && whole != [] && Final(whole[|whole| - 1].kind)
  }

  /** The tail has sent a part of the log that no read from `k` on contradicts. */
  ghost predicate Following(states: seq<State>, k: nat, whole: seq<Event>, fromSeq: nat, cursor: nat, out: seq<Event>) {
    && OneLog(states, whole) && k <= |states|
    && fromSeq <= cursor <= |whole| && out == whole[fromSeq..cursor]
    && forall i | k <= i < |states| && states[i].server.events.Some? :: cursor <= |states[i].server.events.value|
  }

  /** A terminal entry is the last one there is. */
  lemma FinalIsLast(whole: seq<Event>, i: nat)
    requires Log(whole) && i < |whole| && Final(whole[i].kind)
    ensures AllSent(whole, i + 1)
  {
  }

  /** A closed stream has no entry after the one its hash counts. */
  lemma ClosedIsWhole(states: seq<State>, whole: seq<Event>, k: nat)
    requires OneLog(states, whole) && k < |states|
    requires states[k].server.hash.Some? && states[k].server.events.Some?
    ensures var h := states[k].server.hash.value;
            h.last == |states[k].server.events.value| <= |whole| && (!h.status.Open? ==> AllSent(whole, h.last))
  {
    var h, es := states[k].server.hash.value, states[k].server.events.value;
    assert Describes(h, es);
    if !h.status.Open? { FinalIsLast(whole, |es| - 1); }
  }

  /** The next entry, sent in order. */
  method SendNext(states: seq<State>, k: nat, fromSeq: nat, cursor: nat, out: seq<Event>, ghost whole: seq<Event>)
    returns (cursor': nat, out': seq<Event>, final: bool)
    requires Following(states, k, whole, fromSeq, cursor, out) && k < |states| && HasNext(states[k].server, cursor)
    ensures cursor' == cursor + 1 && Following(states, k + 1, whole, fromSeq, cursor', out')
    ensures final ==> AllSent(whole, cursor')
  {
    var entry := states[k].server.events.value[cursor];
    assert states[k].server.events.value <= whole;
    assert entry == whole[cursor] && entry.at == cursor + 1;
    assert whole[fromSeq..cursor] + [entry] == whole[fromSeq..cursor + 1];
    cursor', out', final := entry.at, out + [entry], Final(entry.kind);
    if final { FinalIsLast(whole, cursor); }
    forall i | k < i < |states| && states[i].server.events.Some?
      ensures cursor' <= |states[i].server.events.value|
    {
      assert states[k].server.events.value <= states[i].server.events.value;
    }
  }

  /** The stream was marked, and its reader has everything up to the mark. */
  ghost predicate AtMark(states: seq<State>, k: nat, cursor: nat) {
    && k < |states| && IsMarked(states[k].server)
    && states[k].server.events.Some? && cursor == |states[k].server.events.value|
  }

  ghost predicate KeysGone(states: seq<State>, k: nat) {
    k < |states| && (states[k].server.hash.None? || states[k].server.events.None?)
  }

  /** The state that the tail last saw, if it matters: the stream was closed or
      marked, and the tail is not past what it held. */
  ghost predicate Ending(states: seq<State>, k: nat, h: Hash, cursor: nat) {
    h.degraded || !h.status.Open? ==>
      && k < |states| && states[k].server.hash == Some(h) && states[k].server.events.Some?
      && cursor <= h.last
  }

  /** `runTail` after its replay. */
  method Follow(states: seq<State>, first: nat, fromSeq: nat, sent: nat, initial: seq<Event>, found: Hash,
                ghost whole: seq<Event>)
    returns (out: seq<Event>, end: End, ghost seen: nat)
    requires Following(states, first, whole, fromSeq, sent, initial)
    requires found.status.Open? && !found.degraded
    ensures !end.Refused? && fromSeq + |out| <= |whole| && out == whole[fromSeq..fromSeq + |out|]
    ensures end.Complete? ==> AllSent(whole, fromSeq + |out|)
    ensures end.Gap? ==> AtMark(states, seen, fromSeq + |out|)
    ensures end.Missing? ==> KeysGone(states, seen)
  {
    var cursor: nat, known, k: nat := sent, found, first;
    out, seen := initial, 0;
    while k < |states|
      invariant Following(states, k, whole, fromSeq, cursor, out) && Ending(states, seen, known, cursor)
    {
      if known.degraded && cursor >= known.last {
        ClosedIsWhole(states, whole, seen);
        return out, Gap, seen;
      }
      if !known.status.Open? && cursor >= known.last {
        ClosedIsWhole(states, whole, seen);
        return out, Complete, seen;
      }
      if HasNext(states[k].server, cursor) {
        var final;
        cursor, out, final := SendNext(states, k, fromSeq, cursor, out, whole);
        if final { return out, Complete, seen; }
        k := k + 1;
      } else {
        var over;
        cursor, out, known, k, over, end, seen := LookAgain(states, k + 1, fromSeq, cursor, out, known, whole);
        if over { return; }
      }
    }
    end := Cancelled;
  }

  /** A blocking read came back empty: the tail reads the stream's hash, asks
      whether the events exist, with anything in between, and reads the next
      entry if the hash counts one. */
  method LookAgain(states: seq<State>, k: nat, fromSeq: nat, sent: nat, before: seq<Event>, known: Hash,
                   ghost whole: seq<Event>)
    returns (cursor: nat, out: seq<Event>, h: Hash, next: nat, over: bool, end: End, ghost seen: nat)
    requires Following(states, k, whole, fromSeq, sent, before)
    ensures !over ==> k < next && Following(states, next, whole, fromSeq, cursor, out)
    ensures !over ==> Ending(states, seen, h, cursor)
    ensures over ==> !end.Refused? && !end.Gap? && fromSeq + |out| <= |whole| && out == whole[fromSeq..fromSeq + |out|]
    ensures over && end.Complete? ==> AllSent(whole, fromSeq + |out|)
    ensures over && end.Missing? ==> KeysGone(states, seen)
  {
    cursor, out, h, next, over, end, seen := sent, before, known, k + 2, true, Cancelled, k;
    if k == |states| || k + 1 == |states| { return; }
    if states[k].server.hash.None? {
      end := Missing;
      return;
    }
    if states[k + 1].server.events.None? {
      end, seen := Missing, k + 1;
      return;
    }
    assert states[k].server.events.value <= states[k + 1].server.events.value;
    ClosedIsWhole(states, whole, k);
    h := states[k].server.hash.value;
    if h.last > sent {
      if next == |states| { return; }
      if states[next].server.events.None? {
        end, seen := Missing, next;
        return;
      }
      assert states[k].server.events.value <= states[next].server.events.value;
      var final;
      cursor, out, final := SendNext(states, next, fromSeq, sent, before, whole);
      next := next + 1;
      if final {
        end := Complete;
        return;
      }
    }
    over := false;
  }

  /** `Tail`, over any run of scripts and any number of reads: it sends exactly
      the entries after the cursor, in order, each once. A tail that completes
      has sent the terminal entry, after which there is none; one that reports a
      gap has sent every entry up to a mark; and one that fails found keys gone. */
  method Tail(states: seq<State>, fromSeq: nat, ghost before: seq<Action>, ghost between: seq<seq<Action>>)
    returns (out: seq<Event>, end: End, ghost whole: seq<Event>, ghost seen: nat)
    requires Observed(before, states, between)
    ensures end.Refused? <==> !Readable(states[0].server, fromSeq)
    ensures end.Refused? ==> out == []
    ensures !end.Refused? ==> OneLog(states, whole)
    ensures !end.Refused? ==> fromSeq + |out| <= |whole| && out == whole[fromSeq..fromSeq + |out|]
    ensures end.Complete? ==> AllSent(whole, fromSeq + |out|)
    ensures end.Gap? ==> AtMark(states, seen, fromSeq + |out|)
    ensures end.Missing? ==> KeysGone(states, seen)
  {
    whole, seen := [], 0;
    if !Readable(states[0].server, fromSeq) { return [], Refused, whole, seen; }
    whole := ObservedOneLog(before, states, between);
    IntervalKept(before, states, between, whole);
    ClosedIsWhole(states, whole, 0);
    var found := states[0].server.hash.value;
    var cursor, next, r;
    cursor, out, next, r := ReplayRange(states, 1, fromSeq, found.last, 1, _ => true, whole);
    if r.Lost? { return out, if next < |states| then Missing else Cancelled, whole, next; }
    if found.degraded { return out, Gap, whole, seen; }
    if !found.status.Open? { return out, Complete, whole, seen; }
    out, end, seen := Follow(states, next, fromSeq, cursor, out, found, whole);
  }
}
