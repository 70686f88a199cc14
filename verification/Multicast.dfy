/** The client's replay multicast: one producer, an independent cursor for every
    iterator, and a buffer that holds what the slowest of them has yet to read. */
module Multicast {

  datatype Item = Item(value: nat, size: nat)

  datatype Record = Record(item: Item, cumulative: nat)

  datatype Subscriber = Subscriber(index: nat, cumulative: nat)

  datatype Turn = Yields(item: Item) | Throws | Ends | Waits

  function Bytes(items: seq<Item>): nat {
    if items == [] then 0 else Bytes(items[..|items| - 1]) + items[|items| - 1].size
  }

  /** The buffer is the end of what was published, with running totals. */
  ghost predicate Buffers(records: seq<Record>, base: nat, published: seq<Item>) {
    && base + |records| == |published|
    && forall i | 0 <= i < |records| ::
         records[i] == Record(published[base + i], Bytes(published[..base + i + 1]))
  }

  lemma BuffersDrop(records: seq<Record>, base: nat, published: seq<Item>, n: nat)
    requires Buffers(records, base, published) && n <= |records|
    ensures Buffers(records[n..], base + n, published)
  {
  }

  lemma BytesMore(published: seq<Item>, item: Item)
    ensures Bytes(published + [item]) == Bytes(published) + item.size
  {
    assert (published + [item])[..|published|] == published;
  }

  lemma BuffersMore(records: seq<Record>, base: nat, published: seq<Item>, item: Item)
    requires Buffers(records, base, published)
    ensures Buffers(records + [Record(item, Bytes(published) + item.size)], base, published + [item])
  {
    var more, grown := published + [item], records + [Record(item, Bytes(published) + item.size)];
    BytesMore(published, item);
    forall i | 0 <= i < |grown| ensures grown[i] == Record(more[base + i], Bytes(more[..base + i + 1])) {
      assert more[..base + i + 1] == if i < |records| then published[..base + i + 1] else more;
    }
  }

  /** The cursor is in the buffer's range and knows the bytes before it. */
  ghost predicate Placed(sub: Subscriber, base: nat, published: seq<Item>) {
    base <= sub.index <= |published| && sub.cumulative == Bytes(published[..sub.index])
  }

  /** An iterator that has not failed has yielded everything from the first item
      up to its cursor. */
  ghost predicate Served(subscribers: map<nat, Subscriber>, failed: set<nat>, yielded: map<nat, seq<Item>>,
                         base: nat, published: seq<Item>) {
    forall id | id in subscribers ::
      && Placed(subscribers[id], base, published)
      && (id !in failed ==> id in yielded && yielded[id] == published[..subscribers[id].index])
  }

  lemma ServedMore(subscribers: map<nat, Subscriber>, failed: set<nat>, yielded: map<nat, seq<Item>>,
                   base: nat, published: seq<Item>, item: Item)
    requires Served(subscribers, failed, yielded, base, published)
    ensures Served(subscribers, failed, yielded, base, published + [item])
  {
    forall id | id in subscribers
      ensures (published + [item])[..subscribers[id].index] == published[..subscribers[id].index] {}
  }

  lemma ServedWith(subscribers: map<nat, Subscriber>, failed: set<nat>, yielded: map<nat, seq<Item>>,
                   base: nat, published: seq<Item>, id: nat, sub: Subscriber, done: seq<Item>)
    requires Served(subscribers, failed, yielded, base, published)
    requires Placed(sub, base, published) && (id !in failed ==> done == published[..sub.index])
    ensures Served(subscribers[id := sub], failed, yielded[id := done], base, published)
  {
  }

  lemma ServedDrop(subscribers: map<nat, Subscriber>, failed: set<nat>, yielded: map<nat, seq<Item>>,
                   base: nat, from: nat, published: seq<Item>)
    requires Served(subscribers, failed, yielded, base, published)
    requires forall id | id in subscribers :: from <= subscribers[id].index
    ensures Served(subscribers, failed, yielded, from, published)
  {
  }

  class ReplayMulticast {
    const maxEvents: nat
    const maxBytes: nat
    var records: seq<Record>
    var baseIndex: nat
    var nextIndex: nat
    var totalBytes: nat
    var settled: bool
    var failure: bool
    var everSubscribed: bool
    var lateFailure: bool
    var nextId: nat
    /** The attached iterators. */
    var subscribers: map<nat, Subscriber>
    /** The iterators that throw from now on. */
    var failed: set<nat>
    ghost var published: seq<Item>
    ghost var yielded: map<nat, seq<Item>>

    ghost predicate Valid()
      reads this
    {
      && Buffers(records, baseIndex, published) && nextIndex == |published| && totalBytes == Bytes(published)
      && (lateFailure <==> baseIndex > 0)
      && (!everSubscribed ==> subscribers == map[])
      && (forall id | id in failed :: id < nextId) && (forall id | id in subscribers :: id < nextId)
      && Served(subscribers, failed, yielded, baseIndex, published)
    }

    ghost predicate Limited()
      reads this
    {
      baseIndex <= |published|
      && nextIndex - baseIndex <= maxEvents && totalBytes - Bytes(published[..baseIndex]) <= maxBytes
    }

    constructor (maxEvents: nat, maxBytes: nat)
      ensures Valid() && published == [] && subscribers == map[]
      ensures this.maxEvents == maxEvents && this.maxBytes == maxBytes
    {
      this.maxEvents, this.maxBytes := maxEvents, maxBytes;
      records, baseIndex, nextIndex, totalBytes, settled, failure := [], 0, 0, 0, false, false;
      everSubscribed, lateFailure, nextId, subscribers, failed := false, false, 0, map[], {};
      published, yielded := [], map[];
    }

    /** The bytes before an index of the buffer. */
    method CumulativeBefore(index: nat) returns (bytes: nat)
      requires Valid() && baseIndex <= index <= nextIndex
      ensures bytes == Bytes(published[..index])
    {
      if index <= baseIndex {
        if records == [] {
          assert published[..index] == published;
          return totalBytes;
        }
        assert published[..baseIndex + 1][..baseIndex] == published[..baseIndex];
        return records[0].cumulative - records[0].item.size;
      }
      return records[index - baseIndex - 1].cumulative;
    }

    method LeastIndex() returns (least: nat)
      requires subscribers != map[]
      ensures forall id | id in subscribers :: least <= subscribers[id].index
      ensures exists id | id in subscribers :: subscribers[id].index == least
    {
      var id :| id in subscribers;
      least := subscribers[id].index;
      var left := subscribers.Keys - {id};
      while left != {}
        invariant left <= subscribers.Keys
        invariant forall x | x in subscribers && x !in left :: least <= subscribers[x].index
        invariant exists x | x in subscribers :: subscribers[x].index == least
        decreases left
      {
        var x :| x in left;
        left := left - {x};
        if subscribers[x].index < least { least := subscribers[x].index; }
      }
    }

    /** With nobody ever attached, the longest end that respects both limits. */
    method OldestWithinLimits() returns (from: nat)
      requires Valid()
      ensures baseIndex <= from <= nextIndex
      ensures nextIndex - from <= maxEvents && totalBytes - Bytes(published[..from]) <= maxBytes
    {
      from := baseIndex;
      var before := CumulativeBefore(from);
      assert published[..nextIndex] == published;
      while nextIndex - from > maxEvents || totalBytes - before > maxBytes
        invariant baseIndex <= from <= nextIndex && before == Bytes(published[..from])
        decreases nextIndex - from
      {
        from := from + 1;
        before := CumulativeBefore(from);
      }
    }

    method Compact()
      requires Valid()
      modifies this`records, this`baseIndex, this`lateFailure
      ensures Valid() && old(baseIndex) <= baseIndex
      ensures old(records) != [] && subscribers != map[] ==>
        exists id | id in subscribers :: subscribers[id].index == baseIndex
      ensures old(records) != [] && subscribers == map[] ==> Limited()
    {
      if |records| == 0 { return; }
      var retainFrom := RetainFrom();
      var remove := retainFrom - baseIndex;
      if remove <= 0 { return; }
      lateFailure := true;
      BuffersDrop(records, baseIndex, published, remove);
      ServedDrop(subscribers, failed, yielded, baseIndex, retainFrom, published);
      records := records[remove..];
      baseIndex := retainFrom;
    }

    method RetainFrom() returns (from: nat)
      requires Valid()
      ensures baseIndex <= from <= nextIndex && forall id | id in subscribers :: from <= subscribers[id].index
      ensures subscribers != map[] ==> exists id | id in subscribers :: subscribers[id].index == from
      ensures subscribers == map[] ==>
        nextIndex - from <= maxEvents && totalBytes - Bytes(published[..from]) <= maxBytes
    {
      if |subscribers| > 0 {
        from := LeastIndex();
      } else if !everSubscribed {
        from := OldestWithinLimits();
      } else {
        from := nextIndex;
        assert published[..nextIndex] == published;
      }
    }

    /** Every iterator that can no longer be served within its limits fails. */
    method Publish(item: Item)
      requires Valid()
      modifies this
      ensures Valid()
      ensures published == if old(settled) then old(published) else old(published) + [item]
      ensures !old(settled) ==> Limited()
      ensures forall id | id in old(subscribers) && id !in failed ::
        id in subscribers && subscribers[id] == old(subscribers)[id]
      ensures old(failed) <= failed && yielded == old(yielded)
    {
      if settled { return; }
      Append(item);
      DropLagging();
      Compact();
    }

    method Append(item: Item)
      requires Valid()
      modifies this`records, this`nextIndex, this`totalBytes, this`published
      ensures Valid() && published == old(published) + [item] && records != []
    {
      BuffersMore(records, baseIndex, published, item);
      BytesMore(published, item);
      ServedMore(subscribers, failed, yielded, baseIndex, published, item);
      totalBytes := totalBytes + item.size;
      records := records + [Record(item, totalBytes)];
      nextIndex := nextIndex + 1;
      published := published + [item];
    }

    method DropLagging()
      requires Valid()
      modifies this`subscribers, this`failed
      ensures Valid() && old(failed) <= failed
      ensures forall id | id in subscribers ::
        nextIndex - subscribers[id].index <= maxEvents && totalBytes - subscribers[id].cumulative <= maxBytes
      ensures forall id | id in old(subscribers) && id !in failed ::
        id in subscribers && subscribers[id] == old(subscribers)[id]
    {
      var lagging := set id | id in subscribers &&
        (nextIndex - subscribers[id].index > maxEvents || totalBytes - subscribers[id].cumulative > maxBytes);
      failed := failed + lagging;
      subscribers := subscribers - lagging;
    }

    /** A late iterator is attached only to be told that the beginning is gone. */
    method Subscribe() returns (id: nat)
      requires Valid()
      modifies this
      ensures Valid() && id in subscribers && (id in failed <==> old(baseIndex) > 0)
      ensures id !in failed ==> subscribers[id].index == 0 && yielded[id] == []
      ensures published == old(published)
    {
      id := nextId;
      nextId := nextId + 1;
      var before := CumulativeBefore(baseIndex);
      var sub := Subscriber(baseIndex, before);
      if lateFailure {
        sub := Subscriber(nextIndex, totalBytes);
        failed := failed + {id};
      }
      assert published[..nextIndex] == published;
      ServedWith(subscribers, failed, yielded, baseIndex, published, id, sub, []);
      everSubscribed := true;
      subscribers := subscribers[id := sub];
      yielded := yielded[id := []];
    }

    /** One turn of an iterator's wait. The skip ahead of a cursor that the
        buffer has passed is never taken. */
    method Next(id: nat) returns (r: Turn)
      requires Valid() && (id in subscribers || id in failed)
      modifies this
      ensures Valid() && published == old(published)
      ensures r.Throws? <==> id in old(failed) || (old(subscribers)[id].index == nextIndex && settled && failure)
      ensures r.Yields? <==> id !in old(failed) && old(subscribers)[id].index < nextIndex
      ensures r.Yields? ==> && r.item == published[old(subscribers)[id].index]
                            && yielded == old(yielded)[id := old(yielded)[id] + [r.item]] && id in subscribers
      ensures r.Ends? ==> old(yielded)[id] == published
      ensures id in old(subscribers) ==> old(baseIndex) <= old(subscribers)[id].index
      ensures !r.Yields? ==> yielded == old(yielded)
    {
      if id in failed {
        Unsubscribe(id);
        return Throws;
      }
      var sub := subscribers[id];
      if sub.index < baseIndex { assert false; }
      if sub.index < nextIndex {
        var item := Advance(id);
        Compact();
        return Yields(item);
      }
      if settled {
        assert published[..nextIndex] == published;
        Unsubscribe(id);
        return if failure then Throws else Ends;
      }
      return Waits;
    }

    method Advance(id: nat) returns (item: Item)
      requires Valid() && id in subscribers && id !in failed && subscribers[id].index < nextIndex
      modifies this`subscribers, this`yielded
      ensures Valid() && id in subscribers && item == published[old(subscribers)[id].index]
      ensures yielded == old(yielded)[id := old(yielded)[id] + [item]]
    {
      var sub := subscribers[id];
      var record := records[sub.index - baseIndex];
      item := record.item;
      assert published[..sub.index + 1] == published[..sub.index] + [item];
      ServedWith(subscribers, failed, yielded, baseIndex, published, id,
                 Subscriber(sub.index + 1, record.cumulative), yielded[id] + [item]);
      subscribers := subscribers[id := Subscriber(sub.index + 1, record.cumulative)];
      yielded := yielded[id := yielded[id] + [item]];
    }

    method Unsubscribe(id: nat)
      requires Valid()
      modifies this`subscribers, this`records, this`baseIndex, this`lateFailure
      ensures Valid() && subscribers == old(subscribers) - {id}
    {
      subscribers := subscribers - {id};
      Compact();
    }

    method Settle(withError: bool)
      requires Valid()
      modifies this`settled, this`failure
      ensures Valid() && settled && failure == if old(settled) then old(failure) else withError
    {
      if settled { return; }
      failure, settled := withError, true;
    }
  }
}
