/** The seam between the text a failed producer left behind and the text its
    replacement sends: the replacement may repeat the end of what was already
    accepted, and that repetition is removed once, whole runes at a time. */
module Seam {
  import opened Utf8
  import opened Sequences

  type Text = s: seq<byte> | Valid(s)

  /** `utf8Boundary`: `offset` does not fall inside a rune of `s`. */
  predicate Boundary(s: seq<byte>, offset: nat)
    requires offset <= |s|
  {
    offset == 0 || offset == |s| || RuneStart(s[offset])
  }

  /** The last boundary of `s` not after `at`. */
  function BoundaryBefore(s: seq<byte>, at: nat): (b: nat)
    ensures b <= |s| && b <= at
  {
    if at >= |s| then |s| else if at > 0 && !RuneStart(s[at]) then BoundaryBefore(s, at - 1) else at
  }

  lemma {:induction false} BoundaryBeforeIsLast(s: seq<byte>, at: nat)
    ensures var b := BoundaryBefore(s, at);
            Boundary(s, b) && forall i | b < i <= at && i <= |s| :: !Boundary(s, i)
    decreases at
  {
    if at < |s| && at > 0 && !RuneStart(s[at]) { BoundaryBeforeIsLast(s, at - 1); }
  }

  method Utf8BoundaryAtOrBefore(s: seq<byte>, at: nat) returns (b: nat)
    ensures b == BoundaryBefore(s, at)
  {
    if at >= |s| { return |s|; }
    b := at;
    while b > 0 && !RuneStart(s[b])
      invariant b <= at && BoundaryBefore(s, at) == BoundaryBefore(s, b)
    {
      b := b - 1;
    }
  }

  /** How much of a continuation is inspected for repetition. */
  function HeldLength(continuation: seq<byte>, window: nat): (n: nat)
    ensures n <= |continuation| && n <= window
  {
    BoundaryBefore(continuation, window)
  }

  /** The first `n` held bytes repeat the last `n` accumulated ones, and neither
      text is cut inside a rune. */
  predicate IsOverlap(accumulated: seq<byte>, held: seq<byte>, n: nat) {
    && n <= |accumulated| && n <= |held|
    && Boundary(accumulated, |accumulated| - n) && Boundary(held, n)
    && accumulated[|accumulated| - n..] == held[..n]
  }

  /** The greatest overlap of at most `n` bytes. */
  function OverlapUpTo(accumulated: seq<byte>, held: seq<byte>, n: nat): (r: nat)
    ensures r <= n
  {
    if n == 0 || IsOverlap(accumulated, held, n) then n else OverlapUpTo(accumulated, held, n - 1)
  }

  function Overlap(accumulated: seq<byte>, held: seq<byte>): (r: nat)
    ensures r <= |held|
  {
    OverlapUpTo(accumulated, held, |held|)
  }

  lemma {:induction false} OverlapUpToIsLongest(accumulated: seq<byte>, held: seq<byte>, n: nat)
    ensures var r := OverlapUpTo(accumulated, held, n);
            IsOverlap(accumulated, held, r) && forall i | r < i <= n :: !IsOverlap(accumulated, held, i)
    decreases n
  {
    if n > 0 && !IsOverlap(accumulated, held, n) { OverlapUpToIsLongest(accumulated, held, n - 1); }
  }

  /** No other overlap of the two texts is longer. */
  lemma OverlapIsLongest(accumulated: seq<byte>, held: seq<byte>)
    ensures var r := Overlap(accumulated, held);
            IsOverlap(accumulated, held, r) && forall i: nat :: IsOverlap(accumulated, held, i) ==> i <= r
  {
    OverlapUpToIsLongest(accumulated, held, |held|);
  }

  method LongestUtf8Overlap(accumulated: seq<byte>, held: seq<byte>) returns (n: nat)
    ensures n == Overlap(accumulated, held)
  {
    n := if |accumulated| < |held| then |accumulated| else |held|;
    OverlapIsLongest(accumulated, held);
    while n > 0
      invariant Overlap(accumulated, held) <= n
    {
      if Boundary(accumulated, |accumulated| - n) && Boundary(held, n)
         && accumulated[|accumulated| - n..] == held[..n] {
        assert IsOverlap(accumulated, held, n);
        return;
      }
      n := n - 1;
    }
  }

  /** The bytes to drop from a continuation of `accumulated`. */
  function Repeated(accumulated: seq<byte>, continuation: seq<byte>, window: nat): (n: nat)
    ensures n <= HeldLength(continuation, window)
  {
    Overlap(accumulated, continuation[..HeldLength(continuation, window)])
  }

  /** The accepted text after a migration. */
  function Weld(accumulated: seq<byte>, continuation: seq<byte>, window: nat): seq<byte> {
    accumulated + continuation[Repeated(accumulated, continuation, window)..]
  }

  lemma BoundaryAfter(s: seq<byte>, n: nat, i: nat)
    requires n <= i <= |s| && 0 < i && Boundary(s, i)
    ensures Boundary(s[n..], i - n)
  {
    if i < |s| { assert s[n..][i - n] == s[i]; }
  }

  lemma RuneBefore(s: seq<byte>, i: nat)
    requires 0 < i < |s| && Boundary(s, i)
    ensures RuneSize(s) <= i
  {
    InnerTail(s, i);
  }

  lemma RestValid(s: seq<byte>)
    requires Valid(s) && s != []
    ensures RuneSize(s) > 0 && Valid(s[RuneSize(s)..])
  {
  }

  lemma {:induction false} BoundaryValid(s: seq<byte>, i: nat)
    requires Valid(s) && i <= |s| && Boundary(s, i)
    ensures Valid(s[i..])
    decreases |s|
  {
    if 0 < i < |s| {
      var n := RuneSize(s);
      RestValid(s);
      RuneBefore(s, i);
      BoundaryAfter(s, n, i);
      BoundaryValid(s[n..], i - n);
      DropTwice(s, n, i - n, i);
    } else if i == 0 {
      assert s[0..] == s;
    } else {
      assert s[i..] == [];
    }
  }

  /** The seam never cuts a rune: the accepted text stays valid. */
  lemma WeldValid(accumulated: seq<byte>, continuation: seq<byte>, window: nat)
    requires Valid(accumulated) && Valid(continuation)
    ensures Valid(Weld(accumulated, continuation, window))
  {
    var h := HeldLength(continuation, window);
    OverlapIsLongest(accumulated, continuation[..h]);
    HeldPrefix(continuation, window, Repeated(accumulated, continuation, window));
    BoundaryValid(continuation, Repeated(accumulated, continuation, window));
    ValidConcat(accumulated, continuation[Repeated(accumulated, continuation, window)..]);
  }

  datatype Result<T> = Ok(value: T) | Refused

  /** `ReconcileSeam`: the number of leading bytes to strip. */
  method ReconcileSeam(accumulated: seq<byte>, continuation: seq<byte>, window: int) returns (r: Result<nat>)
    ensures r.Ok? <==> window > 0 && Valid(accumulated) && Valid(continuation)
    ensures r.Ok? ==> r.value == Repeated(accumulated, continuation, window)
  {
    if window <= 0 || !Valid(accumulated) || !Valid(continuation) { return Refused; }
    var held := |continuation|;
    if held > window { held := Utf8BoundaryAtOrBefore(continuation, window); }
    var n := LongestUtf8Overlap(accumulated, continuation[..held]);
    r := Ok(n);
  }

  /** One chunk of the upstream event stream: the assistant text of its first
      choice, in the order its fields carry it, and the bytes that everything
      else in the event takes in the seam buffer. */
  datatype Frame = Frame(texts: seq<Text>, other: nat) {
    function Delta(): seq<byte> { Join(texts) }
  }

  function TextOf(frames: seq<Frame>): seq<byte> {
    if frames == [] then [] else frames[0].Delta() + TextOf(frames[1..])
  }

  /** `stripTextPrefix`: the stripped text and what remains to strip. */
  method StripTextPrefix(text: seq<byte>, remaining: nat) returns (ok: bool, out: seq<byte>, left: nat)
    ensures var n := if |text| < remaining then |text| else remaining;
            && ok == Boundary(text, n)
            && (ok ==> out == text[n..] && left == remaining - n)
  {
    out, left := text, 0;
    if remaining == 0 { return true, out, left; }
    var remove := if |text| < remaining then |text| else remaining;
    if !Boundary(text, remove) { return false, out, left; }
    return true, text[remove..], remaining - remove;
  }

  /** `n` bytes can be stripped from the front of `s` and whatever follows it. */
  predicate Strippable(s: seq<byte>, n: nat) {
    n < |s| ==> Boundary(s, n)
  }

  /** Where the cut falls: inside the next text, at its end, or beyond it. */
  lemma CutPoint(s: seq<byte>, n: nat, t: seq<byte>, rest: seq<byte>, left: nat)
    requires Stripped(s, n, [], t + rest, left) && left > 0 && Valid(rest)
    ensures left < |t| ==> (Strippable(s, n) <==> RuneStart(t[left]))
    ensures left == |t| ==> Strippable(s, n)
  {
    if left < |t| {
      assert s[n - left..][left] == (t + rest)[left] == t[left];
    } else if left == |t| && n < |s| {
      assert s[n - left..][left] == (t + rest)[left] == rest[0];
      ValidStarts(rest);
    }
  }

  /** `rewriteLeadingAssistantText`, and the text of the rewritten chunk. It
      fails exactly when the cut would fall inside a rune. */
  method RewriteLeadingText(texts: seq<Text>, remaining: nat) returns (ok: bool, delta: seq<byte>, left: nat)
    ensures ok <==> Strippable(Join(texts), remaining)
    ensures ok ==> var s := Join(texts);
                   var k := if |s| < remaining then |s| else remaining;
                   delta == s[k..] && left == remaining - k
  {
    ghost var whole := Join(texts);
    ok, left, delta := true, remaining, [];
    var i := 0;
    assert texts[0..] == texts;
    while i < |texts|
      invariant i <= |texts| && ok && (left == 0 ==> Strippable(whole, remaining))
      invariant Stripped(whole, remaining, delta, Join(texts[i..]), left)
    {
      JoinFirst(texts, i);
      ValidJoin(texts[i + 1..]);
      var out;
      ok, out, left := StripText(texts[i], left, whole, remaining, delta, Join(texts[i + 1..]));
      if !ok { return; }
      delta := delta + out;
      i := i + 1;
    }
    StrippedEnd(whole, remaining, delta, left);
  }

  lemma JoinFirst(texts: seq<Text>, i: nat)
    requires i < |texts|
    ensures Join(texts[i..]) == texts[i] + Join(texts[i + 1..])
  {
    assert texts[i..][1..] == texts[i + 1..];
  }

  /** One text field. */
  method StripText(text: Text, remaining: nat,
                   ghost whole: seq<byte>, ghost n: nat, ghost out: seq<byte>, ghost rest: seq<byte>)
      returns (ok: bool, piece: seq<byte>, left: nat)
    requires Stripped(whole, n, out, text + rest, remaining) && Valid(rest)
    requires remaining == 0 ==> Strippable(whole, n)
    ensures ok ==> Stripped(whole, n, out + piece, rest, left) && (left == 0 ==> Strippable(whole, n))
    ensures !ok ==> !Strippable(whole, n)
  {
    if remaining > 0 { CutPoint(whole, n, text, rest, remaining); }
    StrippedStep(whole, n, out, text, rest, remaining);
    ok, piece, left := StripTextPrefix(text, remaining);
  }

  /** Of the first `n` bytes of `s`, `left` are still to be stripped from `rest`,
      and `out` is what the stripped part has yielded. */
  predicate Stripped(s: seq<byte>, n: nat, out: seq<byte>, rest: seq<byte>, left: nat) {
    if left == 0 then n <= |s| && out + rest == s[n..]
    else out == [] && n >= left && n - left <= |s| && rest == s[n - left..]
  }

  lemma StrippedStep(s: seq<byte>, n: nat, out: seq<byte>, t: seq<byte>, rest: seq<byte>, left: nat)
    requires Stripped(s, n, out, t + rest, left)
    ensures var k := if |t| < left then |t| else left;
            Stripped(s, n, out + t[k..], rest, left - k)
  {
    var k := if |t| < left then |t| else left;
    if left == 0 {
      assert out + t[k..] + rest == out + (t + rest);
    } else if left <= |t| {
      assert s[n..] == (t + rest)[k..] == t[k..] + rest;
      assert out + t[k..] + rest == t[k..] + rest;
    } else {
      assert t[k..] == [] && out + t[k..] == [];
      assert rest == (t + rest)[k..] == s[n - (left - k)..];
    }
  }

  lemma StrippedEnd(s: seq<byte>, n: nat, out: seq<byte>, left: nat)
    requires Stripped(s, n, out, [], left)
    ensures var k := if |s| < n then |s| else n; out == s[k..] && left == n - k
  {
    assert out + [] == out;
  }

  lemma {:induction false} ValidFrames(frames: seq<Frame>)
    ensures Valid(TextOf(frames))
    decreases |frames|
  {
    if frames != [] {
      ValidFrames(frames[1..]);
      ValidJoin(frames[0].texts);
      ValidConcat(frames[0].Delta(), TextOf(frames[1..]));
    }
  }

  lemma {:induction false} TextConcat(a: seq<Frame>, b: seq<Frame>)
    ensures TextOf(a + b) == TextOf(a) + TextOf(b)
    decreases |a|
  {
    if a == [] {
      assert a + b == b;
    } else {
      assert (a + b)[1..] == a[1..] + b;
      TextConcat(a[1..], b);
    }
  }

  lemma HeldPrefix(s: seq<byte>, window: nat, n: nat)
    requires n <= HeldLength(s, window) && Boundary(s[..HeldLength(s, window)], n)
    ensures Strippable(s, n)
  {
    BoundaryBeforeIsLast(s, window);
  }

  lemma TextFirst(frames: seq<Frame>, i: nat)
    requires i < |frames|
    ensures TextOf(frames[i..]) == frames[i].Delta() + TextOf(frames[i + 1..])
  {
    assert frames[i..][1..] == frames[i + 1..];
  }

  /** One frame of that loop: chunks after the cut are passed on as they are. */
  method StripFrame(frame: Frame, remaining: nat,
                    ghost whole: seq<byte>, ghost n: nat, ghost out: seq<byte>, ghost rest: seq<byte>)
      returns (ok: bool, delta: seq<byte>, left: nat)
    requires Stripped(whole, n, out, frame.Delta() + rest, remaining) && Valid(rest)
    requires remaining == 0 ==> Strippable(whole, n)
    ensures ok ==> Stripped(whole, n, out + delta, rest, left) && (left == 0 ==> Strippable(whole, n))
    ensures !ok ==> !Strippable(whole, n)
  {
    StrippedStep(whole, n, out, frame.Delta(), rest, remaining);
    if remaining == 0 {
      assert frame.Delta()[0..] == frame.Delta();
      return true, frame.Delta(), 0;
    }
    CutPoint(whole, n, frame.Delta(), rest, remaining);
    ok, delta, left := RewriteLeadingText(frame.texts, remaining);
  }

  /** What is left of `s` when the first `n` bytes of a text that begins with it go. */
  function Cut(s: seq<byte>, n: nat): seq<byte> {
    if n <= |s| then s[n..] else []
  }

  lemma StrippedCut(before: seq<byte>, rest: seq<byte>, n: nat, out: seq<byte>, left: nat)
    requires Stripped(before + rest, n, out, rest, left)
    ensures out == Cut(before, n)
  {
    if left == 0 {
      assert n <= |before|;
      assert (before + rest)[n..] == before[n..] + rest;
      assert out == (out + rest)[..|out|] == before[n..];
    } else {
      assert |rest| == |before + rest| - (n - left);
    }
  }

  lemma CutSoFar(frames: seq<Frame>, i: nat, n: nat, out: seq<byte>, left: nat)
    requires i <= |frames| && Stripped(TextOf(frames), n, out, TextOf(frames[i..]), left)
    ensures out == Cut(TextOf(frames[..i]), n)
  {
    TextConcat(frames[..i], frames[i..]);
    assert frames[..i] + frames[i..] == frames;
    StrippedCut(TextOf(frames[..i]), TextOf(frames[i..]), n, out, left);
  }

  /** The frames that a stream with room for `open` more chunks takes. */
  function Taken(frames: seq<Frame>, open: nat): seq<Frame> {
    if open < |frames| then frames[..open] else frames
  }

  /** The loop of `flushSeam`: append every frame to the accepted text, the first
      `n` bytes of the frames' text removed. It fails exactly when the cut would
      fall inside a rune, when there is too little text to cut from, or when the
      stream ends after `open` more chunks and there are more. */
  method AppendStripped(frames: seq<Frame>, n: nat, text: seq<byte>, open: nat) returns (ok: bool, after: seq<byte>)
    ensures ok <==> Strippable(TextOf(frames), n) && n <= |TextOf(frames)| && |frames| <= open
    ensures Strippable(TextOf(frames), n) ==> after == text + Cut(TextOf(Taken(frames, open)), n)
  {
    ghost var whole := TextOf(frames);
    ghost var out: seq<byte> := [];
    var remaining := n;
    ok, after := true, text;
    var i := 0;
    assert frames[0..] == frames;
    while i < |frames|
      invariant i <= |frames| && i <= open && ok && after == text + out
      invariant remaining == 0 ==> Strippable(whole, n)
      invariant Stripped(whole, n, out, TextOf(frames[i..]), remaining)
    {
      TextFirst(frames, i);
      ValidFrames(frames[i + 1..]);
      CutSoFar(frames, i, n, out, remaining);
      var delta;
      ok, delta, remaining := StripFrame(frames[i], remaining, whole, n, out, TextOf(frames[i + 1..]));
      if !ok { return; }
      if i == open { return false, after; }
      Regroup(text, out, delta);
      out := out + delta;
      after := after + delta;
      i := i + 1;
    }
    CutSoFar(frames, i, n, out, remaining);
    assert frames[..i] == frames;
    StrippedEnd(whole, n, out, remaining);
    if remaining != 0 { ok := false; }
  }

  /** `flushSeam`: commit the buffered frames without what they repeat. `text` is
      the stream's accepted text before and `after` the text afterwards; the
      stream may end after `open` more chunks. */
  method FlushSeam(accumulated: seq<byte>, frames: seq<Frame>, continuation: seq<byte>, window: int,
                   text: seq<byte>, open: nat)
      returns (ok: bool, after: seq<byte>)
    requires continuation == TextOf(frames)
    ensures ok <==> window > 0 && Valid(accumulated) && |frames| <= open
    ensures after == if window > 0 && Valid(accumulated)
                     then text + Cut(TextOf(Taken(frames, open)), Repeated(accumulated, continuation, window))
                     else text
  {
    ValidFrames(frames);
    var result := ReconcileSeam(accumulated, continuation, window);
    if result.Refused? { return false, text; }
    OverlapIsLongest(accumulated, continuation[..HeldLength(continuation, window)]);
    HeldPrefix(continuation, window, result.value);
    ok, after := AppendStripped(frames, result.value, text, open);
  }

  lemma {:induction false} BoundaryStable(t: seq<byte>, u: seq<byte>, at: nat)
    requires at < |t|
    ensures BoundaryBefore(t + u, at) == BoundaryBefore(t, at)
    decreases at
  {
    if at > 0 && !RuneStart(t[at]) { BoundaryStable(t, u, at - 1); }
  }

  /** Once the window is full, text that arrives later changes nothing. */
  lemma RepeatedStable(accumulated: seq<byte>, t: seq<byte>, u: seq<byte>, window: nat)
    requires |t| >= window && Valid(u)
    ensures Repeated(accumulated, t + u, window) == Repeated(accumulated, t, window)
  {
    if |t| > window {
      BoundaryStable(t, u, window);
    } else if u != [] {
      ValidStarts(u);
      assert (t + u)[window] == u[0];
    } else {
      assert t + u == t;
    }
    var h := HeldLength(t, window);
    assert (t + u)[..h] == t[..h];
  }

  lemma WeldMore(accumulated: seq<byte>, t: seq<byte>, u: seq<byte>, window: nat)
    requires |t| >= window && Valid(u)
    ensures Weld(accumulated, t + u, window) == Weld(accumulated, t, window) + u
  {
    RepeatedStable(accumulated, t, u, window);
    var n := Repeated(accumulated, t, window);
    assert (t + u)[n..] == t[n..] + u;
  }

  /** The seam buffer's charge for frames held back. */
  function Charge(frames: seq<Frame>): nat {
    if frames == [] then 0
    else Charge(frames[..|frames| - 1]) + frames[|frames| - 1].other + |frames[|frames| - 1].Delta()| + 256
  }

  /** The frames that must wait for the window to fill never exceed the buffer. */
  predicate Fits(frames: seq<Frame>, window: int, limit: int) {
    frames == [] ||
    (Fits(frames[..|frames| - 1], window, limit) && (|TextOf(frames)| < window ==> Charge(frames) <= limit))
  }

  lemma {:induction false} FitsPrefix(frames: seq<Frame>, more: seq<Frame>, window: int, limit: int)
    requires Fits(frames + more, window, limit)
    ensures Fits(frames, window, limit)
    decreases |more|
  {
    if more == [] {
      assert frames + more == frames;
    } else {
      var n := |more| - 1;
      assert (frames + more)[..|frames| + n] == frames + more[..n];
      FitsPrefix(frames, more[..n], window, limit);
    }
  }

  lemma {:induction false} FitsOnward(frames: seq<Frame>, more: seq<Frame>, window: int, limit: int)
    requires Fits(frames, window, limit) && |TextOf(frames)| >= window
    ensures Fits(frames + more, window, limit)
    decreases |more|
  {
    if more == [] {
      assert frames + more == frames;
    } else {
      var n := |more| - 1;
      FitsOnward(frames, more[..n], window, limit);
      assert (frames + more)[..|frames| + n] == frames + more[..n];
      TextConcat(frames, more);
    }
  }

  /** The accepted text after an attempt whose stream takes `open` of its chunks:
      the overlap is that of the whole continuation. */
  function Kept(accumulated: seq<byte>, frames: seq<Frame>, window: nat, open: nat): seq<byte> {
    accumulated + Cut(TextOf(Taken(frames, open)), Repeated(accumulated, TextOf(frames), window))
  }

  /** A stream that takes every chunk ends up with the welded text. */
  lemma KeptAll(accumulated: seq<byte>, frames: seq<Frame>, window: nat, open: nat)
    requires |frames| <= open
    ensures Kept(accumulated, frames, window, open) == Weld(accumulated, TextOf(frames), window)
  {
  }

  lemma TakenOnward(frames: seq<Frame>, more: seq<Frame>, open: nat)
    requires open <= |frames|
    ensures Taken(frames + more, open) == Taken(frames, open)
  {
    assert (frames + more)[..open] == frames[..open];
    assert open == |frames| ==> frames[..open] == frames;
    assert |more| == 0 ==> frames + more == frames;
  }

  /** Once the window is full, frames that the stream does not take change nothing. */
  lemma KeptOnward(accumulated: seq<byte>, frames: seq<Frame>, more: seq<Frame>, window: nat, open: nat)
    requires open <= |frames| && |TextOf(frames)| >= window
    ensures Kept(accumulated, frames + more, window, open) == Kept(accumulated, frames, window, open)
  {
    TextConcat(frames, more);
    ValidFrames(more);
    RepeatedStable(accumulated, TextOf(frames), TextOf(more), window);
    TakenOnward(frames, more, open);
  }

  /** What an attempt has buffered, or the text and chunks accepted once the seam
      is done. */
  datatype Attempt =
    | Holding(held: seq<Frame>, continuation: seq<byte>, buffered: nat)
    | Passing(text: seq<byte>, taken: nat)
    | Stopped(text: seq<byte>)

  predicate Acceptable(accumulated: seq<byte>, frames: seq<Frame>, window: int, limit: int) {
    window > 0 && Valid(accumulated) && Fits(frames, window, limit)
  }

  /** The attempt's state is right for the frames it has seen. */
  predicate Right(a: Attempt, accumulated: seq<byte>, seen: seq<Frame>, window: int, limit: int, open: nat) {
    match a
    case Holding(held, continuation, buffered) =>
      && held == seen && continuation == TextOf(seen) && buffered == Charge(seen)
      && (seen != [] ==> |continuation| < window) && Fits(seen, window, limit)
    case Passing(text, taken) =>
      && Acceptable(accumulated, seen, window, limit) && taken == |seen| <= open
      && seen != [] && |TextOf(seen)| >= window && text == Weld(accumulated, TextOf(seen), window)
    case Stopped(text) =>
      if Acceptable(accumulated, seen, window, limit)
      then open < |seen| && |TextOf(seen)| >= window && text == Kept(accumulated, seen, window, open)
      else text == accumulated
  }

  lemma SeenMore(seen: seq<Frame>, frame: Frame, window: int, limit: int)
    ensures Fits(seen + [frame], window, limit) <==>
            Fits(seen, window, limit) && (|TextOf(seen + [frame])| < window ==> Charge(seen + [frame]) <= limit)
    ensures TextOf(seen + [frame]) == TextOf(seen) + frame.Delta()
    ensures Charge(seen + [frame]) == Charge(seen) + frame.other + |frame.Delta()| + 256
  {
    TextConcat(seen, [frame]);
    assert TextOf([frame]) == frame.Delta() + TextOf([]) == frame.Delta();
    assert (seen + [frame])[..|seen|] == seen;
  }

  /** One decoded frame. */
  method HandleFrame(a: Attempt, accumulated: seq<byte>, frame: Frame, window: int, limit: int, open: nat,
                     ghost seen: seq<Frame>)
      returns (b: Attempt)
    requires !a.Stopped? && Right(a, accumulated, seen, window, limit, open)
    ensures Right(b, accumulated, seen + [frame], window, limit, open)
  {
    SeenMore(seen, frame, window, limit);
    match a
    case Passing(text, taken) =>
      b := PassFrame(text, taken, accumulated, frame, window, open, seen);
    case Holding(held, continuation, buffered) =>
      var held', continuation' := held + [frame], continuation + frame.Delta();
      if |continuation'| < window {
        var buffered' := buffered + frame.other + |frame.Delta()| + 256;
        if buffered' > limit { return Stopped(accumulated); }
        b := Holding(held', continuation', buffered');
      } else {
        b := FillWindow(accumulated, held', continuation', window, limit, open);
      }
  }

  /** The frame that fills the window. */
  method FillWindow(accumulated: seq<byte>, held: seq<Frame>, continuation: seq<byte>, window: int, limit: int,
                    open: nat)
      returns (b: Attempt)
    requires continuation == TextOf(held) && held != [] && |continuation| >= window && Fits(held, window, limit)
    ensures !b.Holding? && Right(b, accumulated, held, window, limit, open)
  {
    var ok, text := FlushSeam(accumulated, held, continuation, window, accumulated, open);
    if ok { KeptAll(accumulated, held, window, open); }
    b := if ok then Passing(text, |held|) else Stopped(text);
  }

  /** A frame after the seam is passed on unless the stream has ended. */
  method PassFrame(text: seq<byte>, taken: nat, accumulated: seq<byte>, frame: Frame, window: int, open: nat,
                   ghost seen: seq<Frame>)
      returns (b: Attempt)
    requires window > 0 && taken == |seen| <= open && |TextOf(seen)| >= window
    requires text == Weld(accumulated, TextOf(seen), window)
    ensures b.Passing? <==> |seen| < open
    ensures b.Passing? ==> b.taken == |seen| + 1 && b.text == Weld(accumulated, TextOf(seen) + frame.Delta(), window)
    ensures !b.Passing? ==> b == Stopped(Kept(accumulated, seen + [frame], window, open))
  {
    if taken == open {
      KeptAll(accumulated, seen, window, open);
      KeptOnward(accumulated, seen, [frame], window, open);
      return Stopped(text);
    }
    ValidJoin(frame.texts);
    WeldMore(accumulated, TextOf(seen), frame.Delta(), window);
    b := Passing(text + frame.Delta(), taken + 1);
  }

  /** An attempt that stopped early stopped for a reason that holds of all its frames. */
  lemma StoppedEarly(a: Attempt, accumulated: seq<byte>, frames: seq<Frame>, i: nat, window: int, limit: int,
                     open: nat)
    requires i <= |frames| && a.Stopped? && Right(a, accumulated, frames[..i], window, limit, open)
    ensures Acceptable(accumulated, frames, window, limit) ==>
              open < |frames| && a.text == Kept(accumulated, frames, window, open)
    ensures !Acceptable(accumulated, frames, window, limit) ==> a.text == accumulated
  {
    var seen, more := frames[..i], frames[i..];
    assert seen + more == frames;
    if Acceptable(accumulated, seen, window, limit) {
      FitsOnward(seen, more, window, limit);
      KeptOnward(accumulated, seen, more, window, open);
    } else if Fits(frames, window, limit) {
      FitsPrefix(seen, more, window, limit);
    }
  }

  /** One continuation attempt: hold frames back until their text fills the
      window or the attempt ends, reconcile the seam once, then pass frames on.
      `text` is the stream's accepted text when the attempt is over; the stream
      itself may end after `open` more chunks. */
  method RunContinuation(accumulated: seq<byte>, frames: seq<Frame>, window: int, limit: int, open: nat)
      returns (ok: bool, text: seq<byte>)
    ensures ok <==> frames == [] || (Acceptable(accumulated, frames, window, limit) && |frames| <= open)
    ensures ok && frames != [] ==> text == Weld(accumulated, TextOf(frames), window)
    ensures text == if frames != [] && Acceptable(accumulated, frames, window, limit)
                    then Kept(accumulated, frames, window, open) else accumulated
  {
    var a := HandleFrames(accumulated, frames, window, limit, open);
    match a
    case Stopped(after) => return false, after;
    case Passing(after, _) =>
      KeptAll(accumulated, frames, window, open);
      return true, after;
    case Holding(held, continuation, _) =>
      if held == [] { return true, accumulated; }
      ok, text := FlushSeam(accumulated, held, continuation, window, accumulated, open);
  }

  /** The frames of an attempt until it ends or stops. */
  method HandleFrames(accumulated: seq<byte>, frames: seq<Frame>, window: int, limit: int, open: nat)
      returns (a: Attempt)
    ensures !a.Stopped? ==> Right(a, accumulated, frames, window, limit, open)
    ensures a.Stopped? && Acceptable(accumulated, frames, window, limit) ==>
              open < |frames| && a.text == Kept(accumulated, frames, window, open)
    ensures a.Stopped? && !Acceptable(accumulated, frames, window, limit) ==> a.text == accumulated
    ensures a.Stopped? ==> frames != []
  {
    a := Holding([], [], 0);
    var i := 0;
    while i < |frames|
      invariant i <= |frames| && !a.Stopped? && Right(a, accumulated, frames[..i], window, limit, open)
    {
      a := HandleFrame(a, accumulated, frames[i], window, limit, open, frames[..i]);
      TakeMore(frames, i);
      i := i + 1;
      if a.Stopped? {
        StoppedEarly(a, accumulated, frames, i, window, limit, open);
        return;
      }
    }
    assert frames[..i] == frames;
  }
}
