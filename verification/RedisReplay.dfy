/** Reads of a Redis stream that happen at different times while other replicas
    append: the replay of a fixed interval in pages, and what all such reads
    have in common. */
module RedisReplay {
  import opened RedisLog
  import opened RedisCalls

  /** The states that successive reads find along one run of scripts. Between
      two reads anything may happen and the events may expire, but events that
      a read finds have been there since the read before. */
  ghost predicate Observed(before: seq<Action>, states: seq<State>, between: seq<seq<Action>>) {
    && states != [] && |between| == |states| - 1
    && Reached(Init(), before, states[0])
    && forall i | 0 <= i < |between| ::
         && Reached(states[i], between[i], states[i + 1])
         && (states[i + 1].server.events.Some? ==> Retained(states[i], between[i]))
  }

  lemma {:induction false} ObservedInv(before: seq<Action>, states: seq<State>, between: seq<seq<Action>>, i: nat)
    requires Observed(before, states, between) && i < |states|
    ensures Inv(states[i])
    decreases i
  {
    if i == 0 {
      RunKeeps(Init(), before, states[0]);
    } else {
      ObservedInv(before, states, between, i - 1);
      RunKeeps(states[i - 1], between[i - 1], states[i]);
    }
  }

  /** What a later read finds begins with what an earlier one found. */
  lemma {:induction false} ObservedGrow(before: seq<Action>, states: seq<State>, between: seq<seq<Action>>,
                                        i: nat, j: nat)
    requires Observed(before, states, between) && i <= j < |states| && states[j].server.events.Some?
    ensures states[i].server.events.Some? && states[i].server.events.value <= states[j].server.events.value
    decreases j
  {
    if i < j {
      EventsGrow(states[j - 1], between[j - 1], states[j]);
      ObservedGrow(before, states, between, i, j - 1);
    }
  }

  /** Every read finds a part of `whole`, and no less than an earlier read. */
  ghost predicate OneLog(states: seq<State>, whole: seq<Event>) {
    && Log(whole)
    && (forall i | 0 <= i < |states| :: Stored(states[i].server))
    && (forall i | 0 <= i < |states| && states[i].server.events.Some? :: states[i].server.events.value <= whole)
    && (forall i, j | 0 <= i <= j < |states| && states[j].server.events.Some? ::
          states[i].server.events.Some? && states[i].server.events.value <= states[j].server.events.value)
  }

  lemma {:induction false} Newest(states: seq<State>) returns (j: nat)
    requires states != [] && states[0].server.events.Some?
    ensures j < |states| && states[j].server.events.Some?
    ensures forall i | j < i < |states| :: states[i].server.events.None?
    decreases |states|
  {
    var last := |states| - 1;
    if states[last].server.events.Some? {
      j := last;
    } else {
      j := Newest(states[..last]);
      assert forall i | 0 <= i < last :: states[..last][i] == states[i];
    }
  }

  /** Reads along one run of scripts see one log that only grows. */
  lemma ObservedOneLog(before: seq<Action>, states: seq<State>, between: seq<seq<Action>>) returns (whole: seq<Event>)
    requires Observed(before, states, between) && states[0].server.events.Some?
    ensures OneLog(states, whole)
  {
    var last := Newest(states);
    whole := states[last].server.events.value;
    ObservedInv(before, states, between, last);
    forall i | 0 <= i < |states| ensures Stored(states[i].server) {
      ObservedInv(before, states, between, i);
    }
    forall i, j | 0 <= i <= j < |states| && states[j].server.events.Some?
      ensures states[i].server.events.Some? && states[i].server.events.value <= states[j].server.events.value
    {
      ObservedGrow(before, states, between, i, j);
    }
  }

  datatype Outcome = Completed | StoppedEarly | Lost

  /** XRANGE with a count: at most `page` entries from `expected` to `through`. */
  function Page(log: seq<Event>, expected: nat, through: nat, page: nat): seq<Event>
    requires 1 <= expected <= through <= |log|
  {
    log[expected - 1..if expected - 1 + page < through then expected - 1 + page else through]
  }

  /** `replayRedisRange`: the pages are read in `states` from `first` on, until
      they are used up. However the pages fall, the entries handed over are
      exactly those after `fromSeq`, up to the last one that was wanted or could
      be read. */
  method ReplayRange(states: seq<State>, first: nat, fromSeq: nat, through: nat, page: nat,
                     wanted: Event -> bool, ghost whole: seq<Event>)
    returns (cursor: nat, out: seq<Event>, next: nat, r: Outcome)
    requires page > 0 && first <= |states| && OneLog(states, whole) && through <= |whole|
    requires forall i | first <= i < |states| && states[i].server.events.Some? ::
               through <= |states[i].server.events.value|
    ensures fromSeq <= cursor && (cursor <= through || cursor == fromSeq) && |out| == cursor - fromSeq
    ensures cursor <= |whole| ==> out == whole[fromSeq..cursor]
    ensures first <= next <= |states| && next - first <= cursor - fromSeq
    ensures r.Completed? ==> cursor >= through && forall i | 0 <= i < |out| :: wanted(out[i])
    ensures r.StoppedEarly? ==> out != [] && !wanted(out[|out| - 1])
    ensures r.Lost? ==> cursor < through && (next == |states| || states[next].server.events.None?)
    ensures forall i | 0 <= i < |out| - 1 :: wanted(out[i])
  {
    cursor, out, next := fromSeq, [], first;
    while cursor < through
      invariant fromSeq <= cursor && (cursor <= through || cursor == fromSeq) && |out| == cursor - fromSeq
      invariant cursor <= |whole| ==> out == whole[fromSeq..cursor]
      invariant first <= next <= |states| && next - first <= cursor - fromSeq
      invariant forall i | 0 <= i < |out| :: wanted(out[i])
    {
      if next == |states| || states[next].server.events.None? { return cursor, out, next, Lost; }
      var messages := Page(states[next].server.events.value, cursor + 1, through, page);
      assert messages == whole[cursor..cursor + |messages|];
      next := next + 1;
      var stopped;
      cursor, out, stopped := HandOver(messages, fromSeq, cursor, through, out, wanted, whole);
      if stopped { return cursor, out, next, StoppedEarly; }
    }
    r := Completed;
  }

  /** The entries of one page, each checked to be the next one; the checks never fail. */
  method HandOver(messages: seq<Event>, fromSeq: nat, start: nat, through: nat, before: seq<Event>,
                  wanted: Event -> bool, ghost whole: seq<Event>)
    returns (cursor: nat, out: seq<Event>, stopped: bool)
    requires Log(whole) && fromSeq <= start && start + |messages| <= through <= |whole| && messages != []
    requires messages == whole[start..start + |messages|] && before == whole[fromSeq..start]
    requires forall i | 0 <= i < |before| :: wanted(before[i])
    ensures start < cursor <= through && out == whole[fromSeq..cursor]
    ensures !stopped ==> forall i | 0 <= i < |out| :: wanted(out[i])
    ensures forall i | 0 <= i < |out| - 1 :: wanted(out[i])
    ensures stopped ==> !wanted(out[|out| - 1])
  {
    cursor, out, stopped := start, before, false;
    for i := 0 to |messages|
      invariant cursor == start + i && out == whole[fromSeq..cursor]
      invariant forall j | 0 <= j < |out| :: wanted(out[j])
    {
      var entry := messages[i];
      assert entry == whole[cursor];
      if entry.at != cursor + 1 || (Final(entry.kind) && entry.at != through) {
        assert false;
        return cursor, out, true;
      }
      assert whole[fromSeq..cursor] + [entry] == whole[fromSeq..cursor + 1];
      cursor, out := entry.at, out + [entry];
      if !wanted(entry) { return cursor, out, true; }
    }
  }

  /** What `Read` and `Tail` demand of the stream and the cursor. */
  predicate Readable(s: Server, fromSeq: nat) {
    && s.hash.Some? && s.events.Some? && !s.hash.value.status.Stopped?
    && fromSeq <= s.hash.value.last && !(s.hash.value.degraded && fromSeq == s.hash.value.last)
  }

  /** The interval that the first read fixes is there in every later read. */
  lemma IntervalKept(before: seq<Action>, states: seq<State>, between: seq<seq<Action>>, whole: seq<Event>)
    requires Observed(before, states, between) && OneLog(states, whole)
    requires states[0].server.hash.Some? && states[0].server.events.Some?
    ensures var through := states[0].server.hash.value.last;
            && through == |states[0].server.events.value| <= |whole|
            && forall i | 0 <= i < |states| && states[i].server.events.Some? ::
                 through <= |states[i].server.events.value|
  {
    ReachablePasses(before, states[0]);
  }

  /** `Read`, over any run of scripts: the state found first fixes the interval
      and each page is read later. A reader that wants every entry gets exactly
      the entries that were there at first, unless the events expire. */
  method Read(states: seq<State>, fromSeq: nat, page: nat, wanted: Event -> bool,
              ghost before: seq<Action>, ghost between: seq<seq<Action>>)
    returns (refused: bool, out: seq<Event>, r: Outcome)
    requires page > 0 && Observed(before, states, between)
    ensures refused <==> !Readable(states[0].server, fromSeq)
    ensures refused ==> out == []
    ensures !refused ==>
      var log := states[0].server.events.value;
      && fromSeq + |out| <= |log| && out == log[fromSeq..fromSeq + |out|]
      && (r.Completed? ==> out == log[fromSeq..])
      && (r.Lost? ==> |states| <= |log| - fromSeq || exists i | 0 <= i < |states| :: states[i].server.events.None?)
    ensures !refused && r.StoppedEarly? ==> out != [] && !wanted(out[|out| - 1])
    ensures forall i | 0 <= i < |out| - 1 :: wanted(out[i])
  {
    if !Readable(states[0].server, fromSeq) { return true, [], Lost; }
    ghost var whole := ObservedOneLog(before, states, between);
    IntervalKept(before, states, between, whole);
    ghost var log := states[0].server.events.value;
    var through := states[0].server.hash.value.last;
    var cursor, next;
    cursor, out, next, r := ReplayRange(states, 1, fromSeq, through, page, wanted, whole);
    assert whole[fromSeq..cursor] == log[fromSeq..cursor];
    refused := false;
  }
}
