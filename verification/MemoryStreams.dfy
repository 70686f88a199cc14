/** Byte accounting over the streams of the memory journal. */
module MemoryStreams {
  type Id = nat

  datatype Stored = Stored(at: nat, size: nat)

  /** `terminal` is a status other than open. */
  datatype Stream = Stream(entries: seq<Stored>, bytes: int, earliest: nat, last: nat,
                           terminal: bool, degraded: bool, expiresAt: int, ttl: int)

  function Bytes(entries: seq<Stored>): nat {
    if entries == [] then 0 else entries[0].size + Bytes(entries[1..])
  }

  lemma {:induction false} BytesConcat(a: seq<Stored>, b: seq<Stored>)
    ensures Bytes(a + b) == Bytes(a) + Bytes(b)
    decreases |a|
  {
    if a == [] {
      assert a + b == b;
    } else {
      assert (a + b)[1..] == a[1..] + b;
      BytesConcat(a[1..], b);
    }
  }

  /** A contiguous, non-empty run of entries that ends at the last one and whose
      sizes add up to the counter, within the cap of one stream. */
  ghost predicate Ring(s: Stream, cap: int) {
    && |s.entries| > 0 && s.last == s.earliest + |s.entries| - 1 && s.ttl > 0
    && (forall i | 0 <= i < |s.entries| :: s.entries[i].at == s.earliest + i && s.entries[i].size > 0)
    && s.bytes == Bytes(s.entries) <= cap
  }

  ghost function Sum(m: map<Id, Stream>): int {
    if m == map[] then 0 else
      var id :| id in m;
      m[id].bytes + Sum(m - {id})
  }

  lemma {:induction false} SumSplit(m: map<Id, Stream>, id: Id)
    requires id in m
    ensures Sum(m) == m[id].bytes + Sum(m - {id})
    decreases |m|
  {
    var first :| first in m && Sum(m) == m[first].bytes + Sum(m - {first});
    if first != id {
      SumSplit(m - {first}, id);
      SumSplit(m - {id}, first);
      assert m - {first} - {id} == m - {id} - {first};
    }
  }

  lemma SumUpdate(m: map<Id, Stream>, id: Id, s: Stream)
    ensures Sum(m[id := s]) == Sum(m - {id}) + s.bytes
  {
    SumSplit(m[id := s], id);
    assert m[id := s] - {id} == m - {id};
  }

  /** The bytes of the listed streams. */
  function Freed(m: map<Id, Stream>, ids: seq<Id>): int
    requires forall i | 0 <= i < |ids| :: ids[i] in m
  {
    if ids == [] then 0 else m[ids[0]].bytes + Freed(m, ids[1..])
  }

  ghost predicate Distinct(ids: seq<Id>) {
    forall i, j | 0 <= i < j < |ids| :: ids[i] != ids[j]
  }

  function Ids(ids: seq<Id>): set<Id> { set i | 0 <= i < |ids| :: ids[i] }

  lemma {:induction false} SumFreed(m: map<Id, Stream>, ids: seq<Id>)
    requires Distinct(ids) && forall i | 0 <= i < |ids| :: ids[i] in m
    ensures Sum(m) == Freed(m, ids) + Sum(m - Ids(ids))
    decreases |ids|
  {
    if ids == [] {
      assert m - Ids(ids) == m;
    } else {
      var rest := m - {ids[0]};
      SumSplit(m, ids[0]);
      forall i | 0 <= i < |ids[1..]| ensures ids[1..][i] in rest { assert ids[1..][i] == ids[i + 1]; }
      SumFreed(rest, ids[1..]);
      FreedOther(m, ids[1..], ids[0]);
      assert Ids(ids) == {ids[0]} + Ids(ids[1..]);
      assert rest - Ids(ids[1..]) == m - Ids(ids);
    }
  }

  lemma {:induction false} FreedOther(m: map<Id, Stream>, ids: seq<Id>, id: Id)
    requires forall i | 0 <= i < |ids| :: ids[i] in m && ids[i] != id
    ensures Freed(m - {id}, ids) == Freed(m, ids)
    decreases |ids|
  {
    if ids != [] { FreedOther(m, ids[1..], id); }
  }

  lemma {:induction false} FreedSuffix(m: map<Id, Stream>, ids: seq<Id>, k: nat)
    requires k < |ids| && forall i | 0 <= i < |ids| :: ids[i] in m
    ensures Freed(m, ids[k..]) == m[ids[k]].bytes + Freed(m, ids[k + 1..])
  {
    assert ids[k..][1..] == ids[k + 1..];
  }

  /** The listed streams without those in `gone`. */
  function Kept(ids: seq<Id>, gone: set<Id>): seq<Id> {
    if ids == [] then []
    else if ids[0] in gone then Kept(ids[1..], gone)
    else [ids[0]] + Kept(ids[1..], gone)
  }

  lemma {:induction false} KeptMembers(ids: seq<Id>, gone: set<Id>, id: Id)
    ensures id in Kept(ids, gone) <==> id in ids && id !in gone
    decreases |ids|
  {
    if ids != [] { KeptMembers(ids[1..], gone, id); }
  }

  lemma {:induction false} KeptDistinct(ids: seq<Id>, gone: set<Id>)
    requires Distinct(ids)
    ensures Distinct(Kept(ids, gone))
    decreases |ids|
  {
    if ids != [] {
      KeptDistinct(ids[1..], gone);
      KeptMembers(ids[1..], gone, ids[0]);
    }
  }

  lemma {:induction false} KeptTwice(ids: seq<Id>, a: set<Id>, b: set<Id>)
    ensures Kept(Kept(ids, a), b) == Kept(ids, a + b)
    decreases |ids|
  {
    if ids != [] {
      KeptTwice(ids[1..], a, b);
      if ids[0] !in a { assert Kept(ids, a)[1..] == Kept(ids[1..], a); }
    }
  }

  lemma {:induction false} KeptNone(ids: seq<Id>, gone: set<Id>)
    requires forall i | 0 <= i < |ids| :: ids[i] !in gone
    ensures Kept(ids, gone) == ids
    decreases |ids|
  {
    if ids != [] { KeptNone(ids[1..], gone); }
  }

  lemma {:induction false} KeptLast(ids: seq<Id>, id: Id)
    requires Distinct(ids + [id])
    ensures Kept(ids + [id], {id}) == ids
    decreases |ids|
  {
    if ids == [] {
      assert ids + [id] == [id];
    } else {
      assert (ids + [id])[1..] == ids[1..] + [id];
      KeptLast(ids[1..], id);
      assert (ids + [id])[0] != (ids + [id])[|ids|];
    }
  }

  /** A stream whose ring lost its oldest `trim` entries and took a new one. */
  function Appended(s: Stream, trim: nat, size: nat): Stream
    requires trim <= |s.entries|
  {
    s.(entries := s.entries[trim..] + [Stored(s.last + 1, size)], bytes := Bytes(s.entries[trim..]) + size,
       earliest := s.earliest + trim, last := s.last + 1)
  }
}
