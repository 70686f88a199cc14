/** The leading-window buffer: it takes a continuation's bytes in whatever
    fragments they arrive and yields the window that seam reconciliation would
    hold back from the whole continuation. */
module Utf8Window {
  import opened Utf8
  import opened Seam
  import opened Sequences

  /** `completeUTF8Prefix` from `pos` on: where the whole runes end, and whether
      an invalid sequence, not a rune cut short, follows. */
  function CompleteFrom(data: seq<byte>, pos: nat): (r: (nat, bool))
    requires pos <= |data|
    ensures pos <= r.0 <= |data|
    decreases |data| - pos
  {
    if pos == |data| then (pos, false)
    else
      var size := RuneSize(data[pos..]);
      if size == 0 then (pos, FullRune(data[pos..])) else CompleteFrom(data, pos + size)
  }

  method CompleteUtf8Prefix(data: seq<byte>) returns (pos: nat, invalid: bool)
    ensures (pos, invalid) == CompleteFrom(data, 0)
  {
    pos := 0;
    while pos < |data|
      invariant pos <= |data| && CompleteFrom(data, 0) == CompleteFrom(data, pos)
    {
      var size := RuneSize(data[pos..]);
      if size == 0 {
        if !FullRune(data[pos..]) { return pos, false; }
        return pos, true;
      }
      pos := pos + size;
    }
    invalid := false;
  }

  /** Some valid text begins with `data`. */
  ghost predicate Extendable(data: seq<byte>) {
    exists t :: Valid(data + t)
  }

  lemma CompleteStep(data: seq<byte>, pos: nat)
    requires pos <= |data|
    ensures var n := RuneSize(data[pos..]);
      CompleteFrom(data, pos).0 == if n == 0 then pos else CompleteFrom(data, pos + n).0
  {
  }

  /** The whole runes of `data` are valid. */
  lemma {:induction false} CompleteValid(data: seq<byte>, pos: nat)
    requires pos <= |data|
    ensures Valid(data[pos..CompleteFrom(data, pos).0])
    decreases |data| - pos
  {
    var n := RuneSize(data[pos..]);
    CompleteStep(data, pos);
    if n > 0 {
      CompleteValid(data, pos + n);
      RuneValid(data, pos, n, CompleteFrom(data, pos + n).0);
    } else {
      assert data[pos..pos] == [];
    }
  }

  /** What follows them is flagged exactly when no continuation can make it valid. */
  lemma {:induction false} CompleteFlag(data: seq<byte>, pos: nat)
    requires pos <= |data|
    ensures CompleteFrom(data, pos).1 <==> !Extendable(data[pos..])
    decreases |data| - pos
  {
    var n := RuneSize(data[pos..]);
    if pos == |data| {
      assert Valid(data[pos..] + []);
    } else if n == 0 {
      NoWholeRune(data[pos..]);
    } else {
      CompleteFlag(data, pos + n);
      RuneExtendable(data, pos, n);
    }
  }

  lemma NoWholeRune(s: seq<byte>)
    requires s != [] && RuneSize(s) == 0
    ensures FullRune(s) <==> !Extendable(s)
  {
    if FullRune(s) {
      forall t ensures !Valid(s + t) { NoRune(s, t); }
    } else {
      var t := CutRune(s);
      OneRune(s + t);
    }
  }

  lemma RuneValid(data: seq<byte>, pos: nat, n: nat, end: nat)
    requires pos <= |data| && n == RuneSize(data[pos..]) > 0 && pos + n <= end <= |data|
    requires Valid(data[pos + n..end])
    ensures Valid(data[pos..end])
  {
    var rune := data[pos..][..n];
    OneRune(rune);
    assert data[pos..end] == rune + data[pos + n..end];
    ValidConcat(rune, data[pos + n..end]);
  }

  lemma RuneExtendable(data: seq<byte>, pos: nat, n: nat)
    requires pos <= |data| && n == RuneSize(data[pos..]) > 0
    ensures Extendable(data[pos..]) <==> Extendable(data[pos + n..])
  {
    var rune := data[pos..][..n];
    OneRune(rune);
    Rejoin(data[pos..], n);
    DropTwice(data, pos, n, pos + n);
    ExtendableAfter(rune, data[pos + n..]);
  }

  lemma ExtendableAfter(a: seq<byte>, b: seq<byte>)
    requires Valid(a)
    ensures Extendable(a + b) <==> Extendable(b)
  {
    forall t ensures Valid(a + b + t) <==> Valid(b + t) {
      assert a + b + t == a + (b + t);
      ValidConcat(a, b + t);
    }
    if Extendable(a + b) {
      var t :| Valid(a + b + t);
      assert Valid(b + t);
    }
    if Extendable(b) {
      var t :| Valid(b + t);
      assert Valid(a + b + t);
    }
  }

  lemma NoRune(s: seq<byte>, t: seq<byte>)
    requires RuneSize(s) == 0 && FullRune(s)
    ensures !Valid(s + t)
  {
    var w := Width(s[0]);
    if w <= |s| {
      assert (s + t)[..w] == s[..w];
    } else {
      forall i | 0 <= i < |s| ensures (s + t)[i] == s[i] {}
    }
  }

  datatype Outcome = NotReady | Ready | BadUtf8 | AlreadyComplete

  class Utf8WindowBuffer {
    const window: nat
    var data: seq<byte>
    var heldLen: nat
    var ready: bool
    /** The attempt ended with these bytes. */
    ghost var ended: bool

    /** Until the window is ready its bytes are still a possible text. From then
        on the held part is what reconciliation holds: of the bytes themselves
        if the attempt ended with them, of every text they begin otherwise. */
    ghost predicate Good()
      reads this
    {
      && window > 0 && heldLen <= |data|
      && (!ready ==> !ended && Extendable(data) && CompleteFrom(data, 0).0 < window)
      && (ready && !ended ==> forall t :: Valid(data + t) ==> heldLen == HeldLength(data + t, window))
      && (ended ==> Valid(data) && heldLen == HeldLength(data, window))
    }

    constructor (window: nat)
      requires window > 0
      ensures Good() && !ready && data == [] && this.window == window
    {
      this.window := window;
      data, heldLen, ready, ended := [], 0, false, false;
      new;
      assert Valid([] + []);
    }

    method Write(fragment: seq<byte>) returns (r: Outcome)
      requires Good()
      modifies this
      ensures Good() && ended == old(ended)
      ensures r.AlreadyComplete? <==> old(ready)
      ensures !old(ready) ==> (r.BadUtf8? <==> !Extendable(old(data) + fragment))
      ensures !old(ready) ==> data == if r.BadUtf8? then old(data) else old(data) + fragment
      ensures !old(ready) ==> (ready <==> r.Ready?)
      ensures old(ready) ==> data == old(data) && ready && heldLen == old(heldLen)
      ensures r.Ready? <==> !old(ready) && Extendable(data) && CompleteFrom(data, 0).0 >= window
    {
      if ready { return AlreadyComplete; }
      var previous := data;
      data := data + fragment;
      var complete, invalid := CompleteUtf8Prefix(data);
      CompleteFlag(data, 0);
      assert data[0..] == data;
      if invalid {
        data := previous;
        return BadUtf8;
      }
      if complete < window { return NotReady; }
      heldLen := Utf8BoundaryAtOrBefore(data, window);
      ready := true;
      forall t | Valid(data + t) ensures heldLen == HeldLength(data + t, window) {
        WindowFixed(data, t, window);
      }
      return Ready;
    }

    /** The attempt ended: its bytes are the whole continuation. */
    method Finish() returns (ok: bool)
      requires Good()
      modifies this
      ensures Good() && data == old(data)
      ensures ok <==> Valid(data)
      ensures ok ==> ready && ended
      ensures !ok ==> ready == old(ready) && ended == old(ended)
      ensures !ok || old(ready) ==> heldLen == old(heldLen)
    {
      var complete, invalid := CompleteUtf8Prefix(data);
      CompleteValid(data, 0);
      assert data[0..complete] + data[complete..] == data;
      if invalid || complete != |data| {
        assert !Valid(data) by { NotWhole(data); }
        return false;
      }
      assert data + [] == data;
      ok, ended := true, true;
      if ready { return; }
      heldLen := |data|;
      ready := true;
    }

    method Split() returns (held: seq<byte>, remainder: seq<byte>, ok: bool)
      requires Good()
      ensures ok == ready
      ensures ok ==> held + remainder == data
      ensures ok && ended ==> held == data[..HeldLength(data, window)]
      ensures ok && !ended ==> forall t :: Valid(data + t) ==>
                                 held == (data + t)[..HeldLength(data + t, window)]
    {
      if !ready { return [], [], false; }
      held, remainder, ok := data[..heldLen], data[heldLen..], true;
      forall t | Valid(data + t) && !ended ensures held == (data + t)[..HeldLength(data + t, window)] {
        assert (data + t)[..heldLen] == data[..heldLen];
      }
    }
  }

  /** `NewUTF8WindowBuffer` refuses a window that is not positive. */
  method NewWindowBuffer(window: int) returns (buffer: Utf8WindowBuffer?)
    ensures buffer != null <==> window > 0
    ensures buffer != null ==> fresh(buffer) && buffer.Good() && buffer.window == window
    ensures buffer != null ==> buffer.data == [] && !buffer.ready
  {
    if window <= 0 { return null; }
    buffer := new Utf8WindowBuffer(window);
  }

  lemma NotWhole(data: seq<byte>)
    requires CompleteFrom(data, 0).0 != |data| || CompleteFrom(data, 0).1
    ensures !Valid(data)
  {
    CompleteOfValid(data, 0);
    assert data[0..] == data;
  }

  lemma {:induction false} CompleteOfValid(data: seq<byte>, pos: nat)
    requires pos <= |data|
    ensures Valid(data[pos..]) ==> CompleteFrom(data, pos) == (|data|, false)
    decreases |data| - pos
  {
    var size := RuneSize(data[pos..]);
    if size > 0 {
      assert data[pos..][size..] == data[pos + size..];
      CompleteOfValid(data, pos + size);
    }
  }

  /** Whole runes filling the window fix what is held of any longer text. */
  lemma WindowFixed(data: seq<byte>, t: seq<byte>, window: nat)
    requires CompleteFrom(data, 0).0 >= window && Valid(data + t)
    ensures HeldLength(data + t, window) == BoundaryBefore(data, window)
  {
    if |data| > window {
      BoundaryStable(data, t, window);
    } else if t != [] {
      CompleteValid(data, 0);
      assert data[0..|data|] == data;
      ValidConcat(data, t);
      ValidStarts(t);
      assert (data + t)[window] == t[0];
    } else {
      assert data + t == data;
    }
  }

  lemma {:induction false} JoinMore(parts: seq<seq<byte>>, i: nat)
    requires i < |parts|
    ensures Join(parts[..i + 1]) == Join(parts[..i]) + parts[i]
    decreases i
  {
    if i == 0 {
      assert parts[..1] == [parts[0]] && parts[..1][1..] == [] && parts[..0] == [];
    } else {
      JoinMore(parts[1..], i - 1);
      TakeAfterFirst(parts, i + 1);
      TakeAfterFirst(parts, i);
      Regroup(parts[0], Join(parts[1..][..i - 1]), parts[i]);
    }
  }

  lemma {:induction false} JoinSplit(parts: seq<seq<byte>>, i: nat)
    requires i <= |parts|
    ensures Join(parts) == Join(parts[..i]) + Join(parts[i..])
    decreases |parts| - i
  {
    if i == |parts| {
      assert parts[..i] == parts;
    } else {
      JoinSplit(parts, i + 1);
      JoinMore(parts, i);
      assert parts[i..][1..] == parts[i + 1..];
    }
  }

  /** A text whose beginning cannot be extended to a valid one is not valid. */
  lemma BadStart(parts: seq<seq<byte>>, i: nat)
    requires i < |parts| && !Extendable(Join(parts[..i]) + parts[i])
    ensures !Valid(Join(parts))
  {
    JoinMore(parts, i);
    JoinSplit(parts, i + 1);
  }

  /** An attempt's life: its fragments are written until the window is ready,
      and the buffer is finished if the attempt ends first. For every valid text
      and every way to cut it, what is held is what seam reconciliation holds of
      the whole, and nothing is lost. */
  method RunWindow(window: int, fragments: seq<seq<byte>>)
      returns (ok: bool, held: seq<byte>, remainder: seq<byte>, used: nat)
    ensures used <= |fragments|
    ensures ok ==> window > 0 && held + remainder + Join(fragments[used..]) == Join(fragments)
    ensures ok ==> Valid(Join(fragments)) || CompleteFrom(Join(fragments[..used]), 0).0 >= window
    ensures window > 0 && Valid(Join(fragments)) ==>
              ok && held == Join(fragments)[..HeldLength(Join(fragments), window)]
  {
    var buffer := NewWindowBuffer(window);
    used := 0;
    if buffer == null { return false, [], [], used; }
    while used < |fragments| && !buffer.ready
      invariant used <= |fragments| && buffer.Good() && !buffer.ended && buffer.window == window && fresh(buffer)
      invariant buffer.data == Join(fragments[..used])
      invariant buffer.ready ==> CompleteFrom(buffer.data, 0).0 >= window
    {
      var r := buffer.Write(fragments[used]);
      if r.BadUtf8? {
        BadStart(fragments, used);
        return false, [], [], used;
      }
      JoinMore(fragments, used);
      used := used + 1;
    }
    JoinSplit(fragments, used);
    ghost var rest := Join(fragments[used..]);
    if !buffer.ready {
      assert fragments[..used] == fragments;
      ok := buffer.Finish();
      if !ok { return false, [], [], used; }
    }
    held, remainder, ok := buffer.Split();
    assert Join(fragments) == buffer.data + rest;
    assert buffer.data + [] == buffer.data;
  }
}
