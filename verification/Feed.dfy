/** The process-local relay: a bounded queue per attached reader that shadows
    every committed entry and carries the unsequenced events after durability
    is lost. */
module Feed {
  type Size = n: int | n > 0 witness 1

  /** What the relay charges for an entry; the smallest payload is an empty object. */
  function EntrySize(payload: nat): Size { payload + 128 }

  const SMALLEST_PAYLOAD: nat := 2

  /** A shadow of a committed entry, or an event that has no sequence number. */
  datatype Frame = Shadow(at: nat, size: Size) | Loose(event: nat, size: Size)

  datatype Subscriber = Subscriber(queue: seq<Frame>, ackedSeq: nat, lagged: bool)

  function Weight(queue: seq<Frame>): nat {
    if queue == [] then 0 else queue[0].size + Weight(queue[1..])
  }

  lemma {:induction false} WeightAppend(queue: seq<Frame>, f: Frame)
    ensures Weight(queue + [f]) == Weight(queue) + f.size
    decreases |queue|
  {
    if queue != [] {
      assert (queue + [f])[1..] == queue[1..] + [f];
      WeightAppend(queue[1..], f);
    }
  }

  /** A reader over its budget loses its queue; one that was sent the entry
      from the journal does not get its shadow. */
  function Enqueued(s: Subscriber, f: Frame, maxLag: int): Subscriber {
    if s.lagged || (f.Shadow? && f.at <= s.ackedSeq) then s
    else if s.queue != [] && Weight(s.queue) + f.size > maxLag then s.(queue := [], lagged := true)
    else s.(queue := s.queue + [f])
  }

  function Trimmed(queue: seq<Frame>, upTo: nat): seq<Frame> {
    if queue != [] && queue[0].Shadow? && queue[0].at <= upTo then Trimmed(queue[1..], upTo) else queue
  }

  function Acked(s: Subscriber, upTo: nat): Subscriber {
    if upTo <= s.ackedSeq then s else s.(ackedSeq := upTo, queue := Trimmed(s.queue, upTo))
  }

  /** What the lock protects for one reader, with its byte counter. */
  datatype Record = Record(queue: seq<Frame>, bytes: int, ackedSeq: nat, lagged: bool) {
    function View(): Subscriber { Subscriber(queue, ackedSeq, lagged) }

    /** The counter is exact, and only a single frame may exceed the budget. */
    ghost predicate Sound(maxLag: int) {
      && bytes == Weight(queue)
      && (|queue| > 1 ==> bytes <= maxLag)
      && (lagged ==> queue == [])
    }
  }

  /** The abstract state of every reader. */
  ghost function Views(records: map<nat, Record>): map<nat, Subscriber> {
    map id | id in records :: records[id].View()
  }

  lemma ViewsSet(records: map<nat, Record>, id: nat, r: Record)
    ensures Views(records[id := r]) == Views(records)[id := r.View()]
  {
  }

  lemma ViewsSame(records: map<nat, Record>, id: nat, s: Subscriber)
    requires id in records && s == records[id].View()
    ensures Views(records)[id := s] == Views(records)
  {
  }

  /** A broadcast that has yet to reach the readers in `left`. */
  ghost function Partly(readers: map<nat, Subscriber>, left: set<nat>, f: Frame, maxLag: int): map<nat, Subscriber> {
    map id | id in readers :: if id in left then readers[id] else Enqueued(readers[id], f, maxLag)
  }

  lemma PartlyNext(readers: map<nat, Subscriber>, left: set<nat>, id: nat, f: Frame, maxLag: int)
    requires id in readers && id in left
    ensures var now := Partly(readers, left, f, maxLag);
      id in now && Partly(readers, left - {id}, f, maxLag) == now[id := Enqueued(now[id], f, maxLag)]
  {
  }

  datatype Turn = Unknown | Lagged | Got(frame: Frame) | Ended | Blocked

  class DegradedFeed {
    const maxLag: int
    var active: bool
    var boundary: nat
    var closed: bool
    var nextId: nat
    var subscribers: map<nat, Record>

    ghost predicate Valid()
      reads this
    {
      forall id | id in subscribers :: id <= nextId && subscribers[id].Sound(maxLag)
    }

    ghost function View(): map<nat, Subscriber>
      reads this
    {
      Views(subscribers)
    }

    constructor (maxLag: int)
      ensures Valid() && !active && !closed && View() == map[] && this.maxLag == maxLag
    {
      this.maxLag := maxLag;
      active, boundary, closed, nextId, subscribers := false, 0, false, 0, map[];
    }

    method Subscribe() returns (id: nat, ok: bool)
      requires Valid()
      modifies this`nextId, this`subscribers
      ensures Valid()
      ensures ok <==> !active && !closed
      ensures !ok ==> View() == old(View())
      ensures ok ==> id !in old(View()) && View() == old(View())[id := Subscriber([], 0, false)]
    {
      if active || closed { return 0, false; }
      nextId := nextId + 1;
      id, ok := nextId, true;
      ViewsSet(subscribers, id, Record([], 0, 0, false));
      subscribers := subscribers[id := Record([], 0, 0, false)];
    }

    method Enqueue(id: nat, f: Frame)
      requires Valid()
      modifies this`subscribers
      ensures Valid()
      ensures View() == if id !in old(View()) || closed then old(View())
                        else old(View())[id := Enqueued(old(View())[id], f, maxLag)]
    {
      if id !in subscribers { return; }
      var s := subscribers[id];
      if s.lagged || closed || (f.Shadow? && f.at <= s.ackedSeq) {
        ViewsSame(subscribers, id, s.View());
        return;
      }
      if s.bytes != 0 && s.bytes + f.size > maxLag {
        ViewsSet(subscribers, id, s.(queue := [], bytes := 0, lagged := true));
        subscribers := subscribers[id := s.(queue := [], bytes := 0, lagged := true)];
        return;
      }
      WeightAppend(s.queue, f);
      ViewsSet(subscribers, id, s.(queue := s.queue + [f], bytes := s.bytes + f.size));
      subscribers := subscribers[id := s.(queue := s.queue + [f], bytes := s.bytes + f.size)];
    }

    /** Every reader present gets the frame, and none waits for another. */
    method Broadcast(f: Frame)
      requires Valid()
      modifies this`subscribers
      ensures Valid()
      ensures View() == if closed then old(View())
                        else map id | id in old(View()) :: Enqueued(old(View())[id], f, maxLag)
    {
      if closed || |subscribers| == 0 { return; }
      var readers := subscribers.Keys;
      assert Partly(View(), readers, f, maxLag) == View();
      while readers != {}
        invariant Valid() && readers <= old(View()).Keys && View() == Partly(old(View()), readers, f, maxLag)
        decreases readers
      {
        var id :| id in readers;
        PartlyNext(old(View()), readers, id, f, maxLag);
        Enqueue(id, f);
        readers := readers - {id};
      }
    }

    method Activate(lastSeq: nat)
      requires Valid()
      modifies this`active, this`boundary
      ensures Valid()
      ensures active <==> old(active) || !closed
      ensures boundary == if !old(active) && active then lastSeq else old(boundary)
    {
      if closed { return; }
      if !active { active, boundary := true, lastSeq; }
    }

    /** The acknowledged shadows at the head of the queue go, with their bytes. */
    method Acknowledge(id: nat, upTo: nat)
      requires Valid()
      modifies this`subscribers
      ensures Valid()
      ensures View() == if id !in old(View()) then old(View())
                        else old(View())[id := Acked(old(View())[id], upTo)]
    {
      if upTo == 0 || id !in subscribers { return; }
      var s := subscribers[id];
      if upTo <= s.ackedSeq {
        ViewsSame(subscribers, id, s.View());
        return;
      }
      var queue, bytes := s.queue, s.bytes;
      while queue != [] && queue[0].Shadow? && queue[0].at <= upTo
        invariant Trimmed(queue, upTo) == Trimmed(s.queue, upTo)
        invariant bytes == Weight(queue) <= s.bytes && |queue| <= |s.queue|
      {
        bytes := bytes - queue[0].size;
        queue := queue[1..];
      }
      ViewsSet(subscribers, id, Record(queue, bytes, upTo, s.lagged));
      subscribers := subscribers[id := Record(queue, bytes, upTo, s.lagged)];
    }

    /** One turn of the reader's wait for its next frame. */
    method Next(id: nat) returns (r: Turn)
      requires Valid()
      modifies this`subscribers
      ensures Valid()
      ensures r.Unknown? <==> id !in old(View())
      ensures id in old(View()) ==>
        var s := old(View())[id];
        && (r.Lagged? <==> s.lagged)
        && (r.Got? <==> s.queue != [])
        && (r.Got? ==> r.frame == s.queue[0] && View() == old(View())[id := s.(queue := s.queue[1..])])
        && (r.Ended? <==> !s.lagged && s.queue == [] && closed)
      ensures !r.Got? ==> View() == old(View())
    {
      if id !in subscribers { return Unknown; }
      var s := subscribers[id];
      if s.lagged { return Lagged; }
      if |s.queue| != 0 {
        var f := s.queue[0];
        ViewsSet(subscribers, id, s.(queue := s.queue[1..], bytes := s.bytes - f.size));
        subscribers := subscribers[id := s.(queue := s.queue[1..], bytes := s.bytes - f.size)];
        return Got(f);
      }
      return if closed then Ended else Blocked;
    }

    method Unsubscribe(id: nat)
      requires Valid()
      modifies this`subscribers
      ensures Valid()
      ensures View() == old(View()) - {id}
    {
      subscribers := subscribers - {id};
    }

    method Close()
      requires Valid()
      modifies this`closed
      ensures Valid() && closed
    {
      closed := true;
    }
  }
}
