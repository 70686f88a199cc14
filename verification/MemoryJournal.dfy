/** The memory journal: a ring per stream under a per-stream cap and a global
    cap, with the terminal streams given up least recently used first. */
module MemoryJournal {
  import opened Options
  import opened MemoryStreams

  datatype Outcome = Committed(at: nat) | Opened | NotFound | Expired | AlreadyExists | Terminal | Degraded | Capacity

  /** An open stream that has not been marked degraded does not expire. */
  predicate Dead(s: Stream, now: int) {
    (s.terminal || s.degraded) && now >= s.expiresAt
  }

  function DeadIds(m: map<Id, Stream>, now: int): set<Id> { set id | id in m && Dead(m[id], now) }

  function Alive(m: map<Id, Stream>, now: int): map<Id, Stream> { m - DeadIds(m, now) }

  function OpenOnly(m: map<Id, Stream>): map<Id, Stream> { m - set id | id in m && m[id].terminal }

  ghost predicate Rings(m: map<Id, Stream>, cap: int) {
    forall id | id in m :: Ring(m[id], cap)
  }

  /** Every terminal stream is listed, once, and no other stream is. */
  ghost predicate Listed(m: map<Id, Stream>, lru: seq<Id>) {
    && Distinct(lru)
    && (forall i | 0 <= i < |lru| :: lru[i] in m && m[lru[i]].terminal)
    && (forall id | id in m && m[id].terminal :: id in lru)
  }

  /** The oldest entries that have to go for the rest to fit into `room`. */
  function TrimCount(entries: seq<Stored>, room: nat): (n: nat)
    ensures n <= |entries|
  {
    if Bytes(entries) <= room then 0 else 1 + TrimCount(entries[1..], room)
  }

  /** No fewer would do. */
  lemma {:induction false} TrimCountLeast(entries: seq<Stored>, room: nat, n: nat)
    requires n <= |entries|
    ensures Bytes(entries[n..]) <= room <==> n >= TrimCount(entries, room)
    decreases |entries|
  {
    if Bytes(entries) <= room {
      BytesConcat(entries[..n], entries[n..]);
      assert entries[..n] + entries[n..] == entries;
    } else if n == 0 {
      assert entries[0..] == entries;
    } else {
      TrimCountLeast(entries[1..], room, n - 1);
      assert entries[1..][n - 1..] == entries[n..];
    }
  }

  /** The streams at the tail of the list are gone, and no more of them than
      it took to free `need` bytes. */
  ghost predicate Evicted(m: map<Id, Stream>, lru: seq<Id>, m': map<Id, Stream>, lru': seq<Id>, need: int) {
    && (forall i | 0 <= i < |lru| :: lru[i] in m)
    && |lru'| <= |lru| && lru' == lru[..|lru'|]
    && m' == m - Ids(lru[|lru'|..])
    && Freed(m, lru[|lru'|..]) >= need
    && (|lru'| < |lru| ==> Freed(m, lru[|lru'| + 1..]) < need)
  }

  /** The bytes that the ring of one stream gives up to leave `room`. */
  function Overflow(entries: seq<Stored>, room: nat): nat {
    Bytes(entries[..TrimCount(entries, room)])
  }

  method CountTrim(entries: seq<Stored>, bytes: int, room: nat) returns (count: nat, trimmed: int)
    requires bytes == Bytes(entries)
    ensures count == TrimCount(entries, room) && trimmed == Overflow(entries, room)
  {
    count, trimmed := 0, 0;
    assert entries[0..] == entries;
    while bytes - trimmed > room
      invariant count <= |entries| && trimmed == Bytes(entries[..count])
      invariant bytes - trimmed == Bytes(entries[count..])
      invariant TrimCount(entries, room) == count + TrimCount(entries[count..], room)
      decreases |entries| - count
    {
      assert entries[..count + 1] == entries[..count] + [entries[count]];
      BytesConcat(entries[..count], [entries[count]]);
      assert entries[count..][1..] == entries[count + 1..];
      trimmed := trimmed + entries[count].size;
      count := count + 1;
    }
  }

  lemma OpenBytes(m: map<Id, Stream>, lru: seq<Id>)
    requires Listed(m, lru)
    ensures Sum(m) == Freed(m, lru) + Sum(OpenOnly(m))
  {
    SumFreed(m, lru);
    assert m - Ids(lru) == OpenOnly(m);
  }

  function Given(m: map<Id, Stream>, target: Option<Id>, room: int): nat {
    if room >= 0 && target.Some? && target.value in m then Overflow(m[target.value].entries, room) else 0
  }

  /** By how much the journal would exceed the global cap if nothing went. */
  ghost function Excess(m: map<Id, Stream>, target: Option<Id>, size: nat, cap: int, maxTotal: int): int {
    Sum(m) - Given(m, target, cap - size) + size - maxTotal
  }

  /** The open streams alone, with the target's own ring trimmed, leave enough. */
  ghost predicate Fits(m: map<Id, Stream>, target: Option<Id>, size: nat, cap: int, maxTotal: int) {
    size <= cap && Sum(OpenOnly(m)) - Given(m, target, cap - size) + size <= maxTotal
  }

  lemma {:induction false} FreedPositive(m: map<Id, Stream>, ids: seq<Id>, k: nat)
    requires k <= |ids| && forall i | 0 <= i < |ids| :: ids[i] in m && m[ids[i]].bytes >= 0
    ensures 0 <= Freed(m, ids[k..]) <= Freed(m, ids)
    decreases |ids|, k
  {
    if ids == [] {
    } else if k == 0 {
      FreedPositive(m, ids[1..], 0);
      assert ids[0..] == ids && ids[1..][0..] == ids[1..];
    } else {
      FreedPositive(m, ids[1..], k - 1);
      assert ids[1..][k - 1..] == ids[k..];
    }
  }

  lemma OneEvicted(m: map<Id, Stream>, ids: seq<Id>, n: nat)
    requires Distinct(ids) && n < |ids|
    ensures Kept(ids[..n + 1], {ids[n]}) == ids[..n]
    ensures m - Ids(ids[n + 1..]) - {ids[n]} == m - Ids(ids[n..])
  {
    assert ids[..n + 1] == ids[..n] + [ids[n]];
    KeptLast(ids[..n], ids[n]);
    assert ids[n..] == [ids[n]] + ids[n + 1..];
    assert Ids(ids[n..]) == {ids[n]} + Ids(ids[n + 1..]);
  }

  /** Freeing the chosen suffix is enough, or nothing is. */
  lemma Enough(m: map<Id, Stream>, lru: seq<Id>, keep: nat, need: int, cap: int)
    requires Listed(m, lru) && keep <= |lru| && Rings(m, cap)
    requires keep == 0 || Freed(m, lru[keep..]) >= need
    ensures 0 <= Freed(m, lru[keep..])
    ensures Freed(m, lru[keep..]) >= need || Freed(m, lru[keep..]) == Sum(m) - Sum(OpenOnly(m))
    ensures Freed(m, lru[keep..]) <= Sum(m) - Sum(OpenOnly(m))
  {
    OpenBytes(m, lru);
    FreedPositive(m, lru, keep);
    assert lru[0..] == lru;
  }

  lemma Settled(m: map<Id, Stream>, lru: seq<Id>, keep: nat, excess: int, cap: int)
    requires Listed(m, lru) && keep <= |lru| && Rings(m, cap)
    requires keep == 0 || Freed(m, lru[keep..]) >= excess
    requires keep < |lru| ==> Freed(m, lru[keep + 1..]) < excess
    ensures 0 <= Freed(m, lru[keep..])
    ensures Freed(m, lru[keep..]) >= excess <==> Sum(OpenOnly(m)) + excess <= Sum(m)
    ensures Freed(m, lru[keep..]) >= excess ==> Evicted(m, lru, m - Ids(lru[keep..]), lru[..keep], excess)
  {
    Enough(m, lru, keep, excess, cap);
  }

  lemma RemovedListed(m: map<Id, Stream>, lru: seq<Id>, id: Id)
    requires Listed(m, lru)
    ensures Listed(m - {id}, Kept(lru, {id}))
  {
    var left := Kept(lru, {id});
    KeptDistinct(lru, {id});
    forall i | 0 <= i < |left| ensures left[i] in m - {id} && m[left[i]].terminal {
      KeptMembers(lru, {id}, left[i]);
    }
    forall x | x in m - {id} && m[x].terminal ensures x in left { KeptMembers(lru, {id}, x); }
  }

  /** Expired streams are remembered for as long again as they were kept. */
  function Marks(m: map<Id, Stream>, gone: set<Id>, now: int): set<Id> {
    set id | id in gone && id in m && now < m[id].expiresAt + m[id].ttl
  }

  function Unexpired(tombstones: map<Id, int>, now: int): map<Id, int> {
    map id | id in tombstones && now < tombstones[id] :: tombstones[id]
  }

  ghost predicate Swept(m: map<Id, Stream>, lru: seq<Id>, marks: set<Id>, gone: set<Id>, now: int,
                        m': map<Id, Stream>, lru': seq<Id>, marks': set<Id>)
  {
    gone <= m.Keys && m' == m - gone && lru' == Kept(lru, gone) && marks' == marks + Marks(m, gone, now)
  }

  lemma NoneSwept(m: map<Id, Stream>, lru: seq<Id>, marks: set<Id>, now: int)
    ensures Swept(m, lru, marks, {}, now, m, lru, marks)
  {
    KeptNone(lru, {});
    assert m - {} == m && marks + Marks(m, {}, now) == marks;
  }

  lemma OneSwept(m: map<Id, Stream>, lru: seq<Id>, marks: set<Id>, gone: set<Id>, id: Id, now: int,
                 m': map<Id, Stream>, lru': seq<Id>, marks': set<Id>)
    requires Swept(m, lru, marks, gone, now, m', lru', marks') && id in m && id !in gone
    ensures id in m' && m'[id] == m[id]
    ensures Swept(m, lru, marks, gone + {id}, now, m' - {id}, Kept(lru', {id}),
                  if now < m[id].expiresAt + m[id].ttl then marks' + {id} else marks')
  {
    KeptTwice(lru, gone, {id});
    assert m - gone - {id} == m - (gone + {id});
    assert Marks(m, gone + {id}, now) ==
           Marks(m, gone, now) + if now < m[id].expiresAt + m[id].ttl then {id} else {};
  }

  /** A stream after it gave up its oldest entries and took a new one. */
  function Pushed(s: Stream, size: nat, cap: int, now: int): Stream
    requires size <= cap
  {
    Appended(s, TrimCount(s.entries, cap - size), size).(expiresAt := now + s.ttl)
  }

  lemma AppendedRing(s: Stream, n: nat, size: nat, cap: int)
    requires Ring(s, cap) && n <= |s.entries| && 0 < size && Bytes(s.entries[n..]) + size <= cap
    ensures Ring(Appended(s, n, size), cap)
  {
    BytesConcat(s.entries[n..], [Stored(s.last + 1, size)]);
    assert Bytes([Stored(s.last + 1, size)]) == size;
  }

  lemma PushedRing(s: Stream, size: nat, cap: int, now: int)
    requires Ring(s, cap) && 0 < size <= cap
    ensures Ring(Pushed(s, size, cap, now), cap)
    ensures Pushed(s, size, cap, now).bytes == s.bytes - Overflow(s.entries, cap - size) + size
  {
    var n := TrimCount(s.entries, cap - size);
    TrimCountLeast(s.entries, cap - size, n);
    AppendedRing(s, n, size, cap);
    BytesConcat(s.entries[..n], s.entries[n..]);
    assert s.entries[..n] + s.entries[n..] == s.entries;
  }

  method TrimStream(s: Stream, count: nat, ghost cap: int) returns (t: Stream)
    requires count <= |s.entries| && Ring(s, cap)
    ensures t == s.(entries := s.entries[count..], bytes := Bytes(s.entries[count..]), earliest := s.earliest + count)
  {
    var bytes := s.bytes;
    assert s.entries[0..] == s.entries;
    for i := 0 to count
      invariant bytes == Bytes(s.entries[i..])
    {
      assert s.entries[i..][1..] == s.entries[i + 1..];
      bytes := bytes - s.entries[i].size;
    }
    var entries := s.entries[count..];
    t := s.(entries := entries, bytes := bytes,
            earliest := if |entries| != 0 then entries[0].at else s.last + 1);
  }

  method PushOne(s: Stream, trim: nat, size: nat, cap: int, now: int) returns (t: Stream)
    requires Ring(s, cap) && size <= cap && trim == TrimCount(s.entries, cap - size)
    ensures t == Pushed(s, size, cap, now)
  {
    t := TrimStream(s, trim, cap);
    t := t.(entries := t.entries + [Stored(s.last + 1, size)], bytes := t.bytes + size,
            last := s.last + 1, expiresAt := now + s.ttl);
  }

  /** Eviction takes terminal streams only, and changes none of the others. */
  lemma EvictionSpares(m: map<Id, Stream>, lru: seq<Id>, m': map<Id, Stream>, lru': seq<Id>, need: int)
    requires Listed(m, lru) && Evicted(m, lru, m', lru', need)
    ensures forall id | id in m && !m[id].terminal :: id in m' && m'[id] == m[id]
    ensures forall id | id in m' :: id in m && m'[id] == m[id]
  {
  }

  lemma EvictionFrees(m: map<Id, Stream>, lru: seq<Id>, m': map<Id, Stream>, lru': seq<Id>, need: int, id: Id)
    requires Listed(m, lru) && Evicted(m, lru, m', lru', need) && id in m && !m[id].terminal
    ensures Sum(m') <= Sum(m) - need && id in m' && m'[id] == m[id]
  {
    EvictionSpares(m, lru, m', lru', need);
    SumFreed(m, lru[|lru'|..]);
  }

  lemma Restored(m: map<Id, Stream>, id: Id, s: Stream)
    requires id in m
    ensures m[id := s][id := m[id]] == m
  {
  }

  predicate Healthy(s: Stream) { !s.terminal && !s.degraded }

  /** Every healthy open stream other than `id` is there as it was. */
  ghost predicate Spared(m: map<Id, Stream>, m': map<Id, Stream>, id: Id) {
    forall x | x in m && Healthy(m[x]) && x != id :: x in m' && m'[x] == m[x]
  }

  lemma AliveSpares(m: map<Id, Stream>, now: int, id: Id)
    ensures Spared(m, Alive(m, now), id)
  {
  }

  lemma SparedTwice(m: map<Id, Stream>, m': map<Id, Stream>, m'': map<Id, Stream>, id: Id)
    requires Spared(m, m', id) && Spared(m', m'', id)
    ensures Spared(m, m'', id)
  {
  }

  /** The entry went into the stream's ring, and only as many terminal
      streams as it took, least recently used first, made room for it. */
  ghost predicate Took(m: map<Id, Stream>, lru: seq<Id>, m': map<Id, Stream>, lru': seq<Id>,
                       id: Id, size: nat, now: int, cap: int, maxTotal: int)
  {
    && id in m && id in m' && size <= cap && m'[id] == Pushed(m[id], size, cap, now)
    && Evicted(m, lru, m'[id := m[id]], lru', Excess(m, Some(id), size, cap, maxTotal))
  }

  function Reopened(m: map<Id, Stream>, id: Id): map<Id, Stream>
    requires id in m
  {
    m[id := m[id].(terminal := false)]
  }

  /** The answer to a commit and what it did to the unexpired streams. */
  ghost predicate Answered(m: map<Id, Stream>, lru: seq<Id>, r: Outcome, m': map<Id, Stream>, lru': seq<Id>,
                           id: Id, size: nat, now: int, cap: int, maxTotal: int)
  {
    && (r.NotFound? || r.Expired? <==> id !in m)
    && (r.Terminal? <==> id in m && m[id].terminal)
    && (r.Degraded? <==> id in m && !m[id].terminal && m[id].degraded)
    && (r.Capacity? <==> id in m && Healthy(m[id]) && !Fits(m, Some(id), size, cap, maxTotal))
    && (r.Committed? <==> id in m && Healthy(m[id]) && Fits(m, Some(id), size, cap, maxTotal))
    && (!r.Committed? ==> m' == m && lru' == lru)
    && (r.Committed? ==> r.at == m[id].last + 1 && Took(m, lru, m', lru', id, size, now, cap, maxTotal))
  }

  lemma Closed(m: map<Id, Stream>, lru: seq<Id>, id: Id, s: Stream)
    requires Listed(m, lru) && id in m && !m[id].terminal && s.terminal && s.bytes == m[id].bytes
    ensures Listed(m[id := s], [id] + lru) && Sum(m[id := s]) == Sum(m)
  {
    SumSplit(m, id);
    SumUpdate(m, id, s);
  }

  lemma Reclosed(m: map<Id, Stream>, id: Id, s: Stream)
    requires id in m && !m[id].terminal && s == m[id].(terminal := true)
    ensures Reopened(m[id := s], id) == m
  {
    assert s.(terminal := false) == m[id];
  }

  function Fresh(size: nat, now: int, ttl: int): Stream {
    Stream([Stored(1, size)], size, 1, 1, false, false, now + ttl, ttl)
  }

  lemma Added(m: map<Id, Stream>, lru: seq<Id>, id: Id, s: Stream)
    requires Listed(m, lru) && id !in m && !s.terminal
    ensures Listed(m[id := s], lru) && m[id := s] - {id} == m && Sum(m[id := s]) == Sum(m) + s.bytes
  {
    assert m - {id} == m;
    SumUpdate(m, id, s);
  }

  lemma FreshRing(size: nat, now: int, ttl: int, cap: int)
    requires 0 < size <= cap && ttl > 0
    ensures Ring(Fresh(size, now, ttl), cap)
  {
    assert Bytes([Stored(1, size)]) == size;
  }

  lemma MovedListed(m: map<Id, Stream>, lru: seq<Id>, id: Id)
    requires Listed(m, lru) && id in m && m[id].terminal
    ensures Listed(m, [id] + Kept(lru, {id}))
  {
    RemovedListed(m, lru, id);
    KeptMembers(lru, {id}, id);
  }

  lemma EvictedSpares(m: map<Id, Stream>, lru: seq<Id>, m': map<Id, Stream>, lru': seq<Id>, need: int, id: Id)
    requires Listed(m, lru) && Evicted(m, lru, if id in m then m'[id := m[id]] else m' - {id}, lru', need)
    ensures Spared(m, m', id)
  {
    EvictionSpares(m, lru, if id in m then m'[id := m[id]] else m' - {id}, lru', need);
  }

  class Memory {
    const perStream: int
    const maxTotal: int
    var streams: map<Id, Stream>
    var tombstones: map<Id, int>
    /** Most recently used first. */
    var lru: seq<Id>
    var totalBytes: int

    ghost predicate Valid()
      reads this
    {
      && perStream > 0
      && Listed(streams, lru)
      && Rings(streams, perStream)
      && streams.Keys !! tombstones.Keys
      && totalBytes == Sum(streams) <= maxTotal
    }

    constructor (perStream: int, maxTotal: int)
      requires perStream > 0 && maxTotal > 0
      ensures Valid() && streams == map[] && tombstones == map[]
      ensures this.perStream == perStream && this.maxTotal == maxTotal
    {
      this.perStream, this.maxTotal := perStream, maxTotal;
      streams, tombstones, lru, totalBytes := map[], map[], [], 0;
    }

    method RemoveStream(id: Id, now: int, until: int)
      requires Valid() && id in streams
      modifies this
      ensures Valid()
      ensures streams == old(streams) - {id} && lru == Kept(old(lru), {id})
      ensures tombstones == if now < until then old(tombstones)[id := until] else old(tombstones)
      ensures tombstones.Keys == old(tombstones.Keys) + if now < until then {id} else {}
    {
      SumSplit(streams, id);
      assert Ring(streams[id], perStream);
      RemovedListed(streams, lru, id);
      totalBytes := totalBytes - streams[id].bytes;
      streams := streams - {id};
      lru := Kept(lru, {id});
      if now < until { tombstones := tombstones[id := until]; }
    }

    method CleanupExpired(now: int)
      requires Valid()
      modifies this
      ensures Valid()
      ensures streams == Alive(old(streams), now) && lru == Kept(old(lru), DeadIds(old(streams), now))
      ensures tombstones.Keys ==
        Unexpired(old(tombstones), now).Keys + Marks(old(streams), DeadIds(old(streams), now), now)
    {
      tombstones := Unexpired(tombstones, now);
      RemoveAll(DeadIds(streams, now), now);
    }

    method RemoveAll(dead: set<Id>, now: int)
      requires Valid() && dead <= streams.Keys
      modifies this
      ensures Valid()
      ensures Swept(old(streams), old(lru), old(tombstones.Keys), dead, now, streams, lru, tombstones.Keys)
    {
      ghost var m, ids, marks, gone: set<Id> := streams, lru, tombstones.Keys, {};
      var left := dead;
      NoneSwept(m, ids, marks, now);
      while left != {}
        invariant Valid() && left + gone == dead && left !! gone
        invariant Swept(m, ids, marks, gone, now, streams, lru, tombstones.Keys)
        decreases left
      {
        var id :| id in left;
        OneSwept(m, ids, marks, gone, id, now, streams, lru, tombstones.Keys);
        RemoveStream(id, now, streams[id].expiresAt + streams[id].ttl);
        left, gone := left - {id}, gone + {id};
      }
    }

    /** Walks the list from its least recent end until `need` bytes are found. */
    method Choose(need: int) returns (keep: nat, freed: int)
      requires Valid()
      ensures keep <= |lru| && freed == Freed(streams, lru[keep..])
      ensures keep == 0 || freed >= need
      ensures keep < |lru| ==> Freed(streams, lru[keep + 1..]) < need && need > 0
    {
      keep, freed := |lru|, 0;
      while keep > 0 && freed < need
        invariant keep <= |lru| && freed == Freed(streams, lru[keep..])
        invariant keep < |lru| ==> Freed(streams, lru[keep + 1..]) < need && need > 0
        invariant freed >= 0
      {
        FreedSuffix(streams, lru, keep - 1);
        keep := keep - 1;
        freed := freed + streams[lru[keep]].bytes;
      }
    }

    method Evict(keep: nat, now: int)
      requires Valid() && keep <= |lru|
      modifies this
      ensures Valid() && lru == old(lru)[..keep] && streams == old(streams) - Ids(old(lru)[keep..])
      ensures tombstones.Keys <= old(tombstones.Keys + streams.Keys)
    {
      ghost var m, ids := streams, lru;
      var n := |lru|;
      assert m - Ids(ids[n..]) == m;
      while n > keep
        invariant Valid() && keep <= n <= |ids| && lru == ids[..n] && streams == m - Ids(ids[n..])
        invariant tombstones.Keys <= old(tombstones.Keys + streams.Keys)
      {
        n := n - 1;
        var victim := lru[n];
        OneEvicted(m, ids, n);
        RemoveStream(victim, now, now + streams[victim].ttl);
      }
    }

    /** The global cap: room is refused exactly when the open streams alone leave
        too little of it, and then nothing changes. */
    method Reclaim(given: nat, size: nat, now: int) returns (ok: bool)
      requires Valid()
      modifies this
      ensures Valid()
      ensures ok <==> Sum(OpenOnly(old(streams))) - given + size <= maxTotal
      ensures ok ==> Evicted(old(streams), old(lru), streams, lru, Sum(old(streams)) - given + size - maxTotal)
      ensures !ok ==> streams == old(streams) && lru == old(lru) && tombstones == old(tombstones)
      ensures tombstones.Keys <= old(tombstones.Keys + streams.Keys)
    {
      var base := totalBytes - given;
      var need := if size > maxTotal - base then size - (maxTotal - base) else 0;
      var keep, freed := Choose(need);
      Settled(streams, lru, keep, Sum(streams) - given + size - maxTotal, perStream);
      if freed < need { return false; }
      Evict(keep, now);
      ok := true;
    }

    method MakeRoom(target: Option<Id>, size: nat, now: int) returns (ok: bool, trim: nat)
      requires Valid() && (target.Some? ==> target.value in streams && !streams[target.value].terminal)
      modifies this
      ensures Valid()
      ensures ok <==> Fits(old(streams), target, size, perStream, maxTotal)
      ensures ok && target.Some? ==> trim == TrimCount(old(streams)[target.value].entries, perStream - size)
      ensures ok ==> Evicted(old(streams), old(lru), streams, lru,
                             Excess(old(streams), target, size, perStream, maxTotal))
      ensures !ok ==> streams == old(streams) && lru == old(lru) && tombstones == old(tombstones)
      ensures tombstones.Keys <= old(tombstones.Keys + streams.Keys)
    {
      trim := 0;
      if size > perStream { return false, 0; }
      var trimmed := 0;
      if target.Some? {
        var s := streams[target.value];
        trim, trimmed := CountTrim(s.entries, s.bytes, perStream - size);
      }
      assert trimmed == Given(streams, target, perStream - size);
      ok := Reclaim(trimmed, size, now);
    }

    /** One entry goes in, or nothing changes. */
    method Commit(id: Id, size: nat, now: int) returns (ok: bool)
      requires Valid() && size > 0 && id in streams && !streams[id].terminal
      modifies this
      ensures Valid()
      ensures ok <==> Fits(old(streams), Some(id), size, perStream, maxTotal)
      ensures !ok ==> streams == old(streams) && lru == old(lru) && tombstones == old(tombstones)
      ensures ok ==> Took(old(streams), old(lru), streams, lru, id, size, now, perStream, maxTotal)
    {
      ghost var m, ids := streams, lru;
      var trim;
      ok, trim := MakeRoom(Some(id), size, now);
      if ok { Grow(m, ids, id, trim, size, now); }
    }

    method Grow(ghost m: map<Id, Stream>, ghost ids: seq<Id>, id: Id, trim: nat, size: nat, now: int)
      requires Valid() && Listed(m, ids) && id in m && !m[id].terminal && 0 < size <= perStream
      requires trim == TrimCount(m[id].entries, perStream - size)
      requires Evicted(m, ids, streams, lru, Excess(m, Some(id), size, perStream, maxTotal))
      modifies this`streams, this`totalBytes
      ensures Valid() && Took(m, ids, streams, lru, id, size, now, perStream, maxTotal)
    {
      ghost var kept, need := streams, Excess(m, Some(id), size, perStream, maxTotal);
      EvictionFrees(m, ids, kept, lru, need, id);
      Push(id, trim, size, now);
      Restored(kept, id, streams[id]);
      assert streams[id := m[id]] == kept;
    }

    method Push(id: Id, trim: nat, size: nat, now: int)
      requires Valid() && id in streams && 0 < size <= perStream
      requires trim == TrimCount(streams[id].entries, perStream - size)
      requires totalBytes - Overflow(streams[id].entries, perStream - size) + size <= maxTotal
      modifies this`streams, this`totalBytes
      ensures Valid() && streams == old(streams)[id := Pushed(old(streams)[id], size, perStream, now)]
    {
      var s := streams[id];
      assert Ring(s, perStream);
      var t := PushOne(s, trim, size, perStream, now);
      PushedRing(s, size, perStream, now);
      Store(id, t);
    }

    /** A stream's new contents, with the total moved by the difference. */
    method Store(id: Id, t: Stream)
      requires Valid() && id in streams && Ring(t, perStream) && t.terminal == streams[id].terminal
      requires totalBytes - streams[id].bytes + t.bytes <= maxTotal
      modifies this`streams, this`totalBytes
      ensures Valid() && streams == old(streams)[id := t]
    {
      SumSplit(streams, id);
      SumUpdate(streams, id, t);
      totalBytes := totalBytes - streams[id].bytes + t.bytes;
      streams := streams[id := t];
    }

    method Lookup(id: Id, now: int) returns (missing: Option<Outcome>)
      requires Valid()
      modifies this
      ensures Valid()
      ensures streams == Alive(old(streams), now) && lru == Kept(old(lru), DeadIds(old(streams), now))
      ensures missing.None? <==> id in streams
      ensures missing.Some? ==> missing.value == if id in tombstones then Expired else NotFound
    {
      CleanupExpired(now);
      if id in streams { return None; }
      missing := Some(if id in tombstones then Expired else NotFound);
    }

    method Append(id: Id, size: nat, now: int) returns (r: Outcome)
      requires Valid() && size > 0
      modifies this
      ensures Valid() && Spared(old(streams), streams, id)
      ensures Answered(Alive(old(streams), now), Kept(old(lru), DeadIds(old(streams), now)),
                       r, streams, lru, id, size, now, perStream, maxTotal)
    {
      AliveSpares(streams, now, id);
      var missing := Lookup(id, now);
      if missing.Some? { return missing.value; }
      var s := streams[id];
      if s.terminal { return Terminal; }
      if s.degraded { return Degraded; }
      ghost var m, ids := streams, lru;
      var ok := Commit(id, size, now);
      if !ok { return Capacity; }
      EvictedSpares(m, ids, streams, lru, Excess(m, Some(id), size, perStream, maxTotal), id);
      SparedTwice(old(streams), m, streams, id);
      return Committed(s.last + 1);
    }

    /** The terminal entry goes in, and the stream joins the list at its front. */
    method Close(id: Id, size: nat, now: int) returns (r: Outcome)
      requires Valid() && size > 0
      modifies this
      ensures Valid() && Spared(old(streams), streams, id)
      ensures r.Committed? ==> id in streams && streams[id].terminal && lru != [] && lru[0] == id
      ensures Answered(Alive(old(streams), now), Kept(old(lru), DeadIds(old(streams), now)), r,
                       if r.Committed? then Reopened(streams, id) else streams, if r.Committed? then lru[1..] else lru,
                       id, size, now, perStream, maxTotal)
    {
      r := Append(id, size, now);
      if r.Committed? { Finish(id, now); }
    }

    method Finish(id: Id, now: int)
      requires Valid() && id in streams && Healthy(streams[id]) && streams[id].expiresAt == now + streams[id].ttl
      modifies this`streams, this`lru
      ensures Valid()
      ensures id in streams && streams[id].terminal && Reopened(streams, id) == old(streams) && lru == [id] + old(lru)
      ensures forall x | x in old(streams) && x != id :: x in streams && streams[x] == old(streams)[x]
    {
      var s := streams[id].(terminal := true, expiresAt := now + streams[id].ttl);
      Closed(streams, lru, id, s);
      Reclosed(streams, id, s);
      streams := streams[id := s];
      lru := [id] + lru;
    }

    /** Commits the open entry of a new stream. */
    method Open(id: Id, size: nat, now: int, ttl: int) returns (r: Outcome)
      requires Valid() && size > 0 && ttl > 0
      modifies this
      ensures Valid() && Spared(old(streams), streams, id)
      ensures var m := Alive(old(streams), now);
        && (r.AlreadyExists? <==> id in m || id in Unexpired(old(tombstones), now)
                                  || id in Marks(old(streams), DeadIds(old(streams), now), now))
        && (r.Capacity? <==> !r.AlreadyExists? && !Fits(m, None, size, perStream, maxTotal))
        && (r.Opened? <==> !r.AlreadyExists? && Fits(m, None, size, perStream, maxTotal))
        && (!r.Opened? ==> streams == m)
        && (r.Opened? ==> && id in streams && streams[id] == Fresh(size, now, ttl)
                          && Evicted(m, Kept(old(lru), DeadIds(old(streams), now)), streams - {id}, lru,
                                     Excess(m, None, size, perStream, maxTotal)))
    {
      AliveSpares(streams, now, id);
      CleanupExpired(now);
      if id in streams || id in tombstones { return AlreadyExists; }
      ghost var m, ids, need := streams, lru, Excess(streams, None, size, perStream, maxTotal);
      var ok, _ := MakeRoom(None, size, now);
      if !ok { return Capacity; }
      r := Insert(m, ids, need, id, size, now, ttl);
      EvictedSpares(m, ids, streams, lru, need, id);
      SparedTwice(old(streams), m, streams, id);
    }

    method Insert(ghost m: map<Id, Stream>, ghost ids: seq<Id>, ghost need: int,
                  id: Id, size: nat, now: int, ttl: int) returns (r: Outcome)
      requires Valid() && 0 < size <= perStream && ttl > 0 && id !in streams && id !in m && id !in tombstones
      requires Listed(m, ids) && Evicted(m, ids, streams, lru, need) && Sum(m) + size - maxTotal <= need
      modifies this`streams, this`totalBytes
      ensures Valid() && r.Opened?
      ensures id in streams && streams[id] == Fresh(size, now, ttl)
      ensures Evicted(m, ids, streams - {id}, lru, need)
    {
      SumFreed(m, ids[|lru|..]);
      Added(streams, lru, id, Fresh(size, now, ttl));
      FreshRing(size, now, ttl, perStream);
      streams := streams[id := Fresh(size, now, ttl)];
      totalBytes := totalBytes + size;
      return Opened;
    }

    /** Seals sequence allocation; from here on the stream can expire. */
    method MarkDegraded(id: Id, now: int) returns (ok: bool)
      requires Valid()
      modifies this
      ensures Valid()
      ensures var m := Alive(old(streams), now);
        && (ok <==> id in m && !m[id].terminal)
        && streams == if ok then m[id := m[id].(degraded := true, expiresAt := now + m[id].ttl)] else m
      ensures lru == Kept(old(lru), DeadIds(old(streams), now))
    {
      var missing := Lookup(id, now);
      if missing.Some? || streams[id].terminal { return false; }
      Seal(id, now);
      return true;
    }

    method Seal(id: Id, now: int)
      requires Valid() && id in streams && !streams[id].terminal
      modifies this`streams, this`totalBytes
      ensures Valid()
      ensures var s := old(streams)[id]; streams == old(streams)[id := s.(degraded := true, expiresAt := now + s.ttl)]
    {
      var s := streams[id];
      assert Ring(s, perStream);
      Store(id, s.(degraded := true, expiresAt := now + s.ttl));
    }

    /** Any read of a terminal stream makes it the most recently used. */
    method Visit(id: Id, now: int) returns (missing: Option<Outcome>)
      requires Valid()
      modifies this
      ensures Valid() && streams == Alive(old(streams), now)
      ensures missing.None? <==> id in streams
      ensures var ids := Kept(old(lru), DeadIds(old(streams), now));
        lru == if id in streams && streams[id].terminal then [id] + Kept(ids, {id}) else ids
    {
      missing := Lookup(id, now);
      if missing.None? && streams[id].terminal {
        MovedListed(streams, lru, id);
        lru := [id] + Kept(lru, {id});
      }
    }
  }
}
