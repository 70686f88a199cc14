/** The event-stream encoder and decoder, byte by byte. */
module Sse {
  import opened Ascii
  import opened Options
  import opened Utf8
  import opened SseWire

  datatype Failure = TooLarge | InvalidUtf8

  const BOM: seq<byte> := [0xEF, 0xBB, 0xBF]

  /** The decoder between two bytes, with the events it has returned. */
  datatype State = State(frame: Frame, started: bool, firstLine: bool, skipLF: bool, frameBytes: nat,
                         line: seq<byte>, out: seq<Event>, failed: Option<Failure>)

  const START: State := State(NOTHING, false, true, false, 0, [], [], None)

  function WithoutBom(d: State): seq<byte> {
    if d.firstLine && BOM <= d.line then d.line[3..] else d.line
  }

  /** The blank line: the frame is returned if it has a field in it. */
  function Finished(d: State): State {
    var e := d.frame.event;
    var trimmed := if e.data.Some? && e.data.value != []
                   then e.(data := Some(e.data.value[..|e.data.value| - 1])) else e;
    d.(frame := NOTHING, started := false, frameBytes := 0, line := [],
       out := if d.frame.recognized then d.out + [trimmed] else d.out)
  }

  function EndLine(d: State): State {
    var line := WithoutBom(d);
    var t := d.(firstLine := false, line := []);
    if !Valid(line) then t.(failed := Some(InvalidUtf8))
    else if line == [] then Finished(t)
    else t.(started := true, frame := Consumed(t.frame, line))
  }

  function Feed(d: State, b: byte, max: nat): State {
    if d.failed.Some? then d
    else if d.skipLF && b == LF then d.(skipLF := false)
    else
      var t := d.(skipLF := false);
      if b == CR then EndLine(t).(skipLF := true)
      else if b == LF then EndLine(t)
      else if t.frameBytes >= max then t.(failed := Some(TooLarge))
      else t.(frameBytes := t.frameBytes + 1, line := t.line + [b])
  }

  function Fed(d: State, input: seq<byte>, max: nat): State
    decreases |input|
  {
    if input == [] then d else Fed(Feed(d, input[0], max), input[1..], max)
  }

  /** The input may end here: no frame is open. */
  predicate AtRest(d: State) { d.failed.None? && WithoutBom(d) == [] && !d.started }

  lemma {:induction false} FedConcat(d: State, a: seq<byte>, b: seq<byte>, max: nat)
    ensures Fed(d, a + b, max) == Fed(Fed(d, a, max), b, max)
    decreases |a|
  {
    if a == [] {
      assert a + b == b;
    } else {
      assert (a + b)[1..] == a[1..] + b;
      FedConcat(Feed(d, a[0], max), a[1..], b, max);
    }
  }

  predicate Eol(eol: seq<byte>) { eol == [LF] || eol == [CR] || eol == [CR, LF] }

  /** A line that no decoder state can mistake for something else. */
  predicate Clean(line: seq<byte>) {
    line != [] && LF !in line && CR !in line && Valid(line) && line[0] != BOM[0]
  }

  /** At the start of a line, in a stream with these line endings. */
  predicate Ready(d: State, eol: seq<byte>) {
    d.line == [] && d.failed.None? && (d.skipLF ==> eol == [CR])
  }

  lemma {:induction false} BytesFed(d: State, line: seq<byte>, max: nat)
    requires d.failed.None? && LF !in line && CR !in line && d.frameBytes + |line| <= max
    ensures Fed(d, line, max) == d.(line := d.line + line, frameBytes := d.frameBytes + |line|,
                                    skipLF := d.skipLF && line == [])
    decreases |line|
  {
    if line == [] {
      assert d.line + line == d.line;
    } else {
      var t := Feed(d, line[0], max);
      assert t == d.(line := d.line + [line[0]], frameBytes := d.frameBytes + 1, skipLF := false);
      BytesFed(t, line[1..], max);
      assert d.line + [line[0]] + line[1..] == d.line + line;
    }
  }

  lemma EolFed(d: State, eol: seq<byte>, max: nat)
    requires d.failed.None? && Eol(eol) && (d.skipLF ==> eol == [CR]) && EndLine(d.(skipLF := false)).failed.None?
    ensures Fed(d, eol, max) == EndLine(d.(skipLF := false)).(skipLF := eol == [CR])
  {
    var t := EndLine(d.(skipLF := false));
    assert eol[0..] == eol && eol[1..][0..] == eol[1..];
    if eol == [CR, LF] {
      assert eol[1..] == [LF] && [LF][1..] == [] && |eol| == 2;
      assert Feed(d, CR, max) == t.(skipLF := true);
      assert Fed(t.(skipLF := true), [LF], max) == t;
    } else {
      assert eol[1..] == [];
    }
  }

  lemma LineFed(d: State, line: seq<byte>, eol: seq<byte>, max: nat)
    requires Ready(d, eol) && Eol(eol) && Clean(line) && d.frameBytes + |line| <= max
    ensures Fed(d, line + eol, max) ==
            d.(frame := Consumed(d.frame, line), started := true, firstLine := false,
               frameBytes := d.frameBytes + |line|, skipLF := eol == [CR])
  {
    FedConcat(d, line, eol, max);
    BytesFed(d, line, max);
    var t := Fed(d, line, max);
    assert t.line == line && WithoutBom(t) == line;
    EolFed(t, eol, max);
  }

  lemma BlankFed(d: State, eol: seq<byte>, max: nat)
    requires Ready(d, eol) && Eol(eol)
    ensures Fed(d, eol, max) == Finished(d).(firstLine := false, skipLF := eol == [CR])
  {
    assert WithoutBom(d.(skipLF := false)) == [];
    EolFed(d, eol, max);
  }

  function WireLines(lines: seq<seq<byte>>, eol: seq<byte>): seq<byte> {
    if lines == [] then [] else lines[0] + eol + WireLines(lines[1..], eol)
  }

  function Size(lines: seq<seq<byte>>): nat {
    if lines == [] then 0 else |lines[0]| + Size(lines[1..])
  }

  lemma {:induction false} LinesFed(d: State, lines: seq<seq<byte>>, eol: seq<byte>, max: nat)
    requires Ready(d, eol) && Eol(eol) && d.frameBytes + Size(lines) <= max && lines != []
    requires AllClean(lines)
    ensures Fed(d, WireLines(lines, eol), max) ==
            d.(frame := ConsumedAll(d.frame, lines), started := true, firstLine := false,
               frameBytes := d.frameBytes + Size(lines), skipLF := eol == [CR])
    decreases |lines|
  {
    FedConcat(d, lines[0] + eol, WireLines(lines[1..], eol), max);
    LineFed(d, lines[0], eol, max);
    if |lines| > 1 { LinesFed(Fed(d, lines[0] + eol, max), lines[1..], eol, max); }
  }

  function Wire(e: Event, eol: seq<byte>): seq<byte> { WireLines(Lines(e), eol) + eol }

  function WireAll(es: seq<Event>, eol: seq<byte>): seq<byte> {
    if es == [] then [] else Wire(es[0], eol) + WireAll(es[1..], eol)
  }

  /** `s` with every line feed replaced. */
  function Replaced(s: seq<byte>, eol: seq<byte>): seq<byte> {
    if s == [] then [] else (if s[0] == LF then eol else [s[0]]) + Replaced(s[1..], eol)
  }

  /** Between two frames. */
  predicate Idle(d: State, eol: seq<byte>) {
    Ready(d, eol) && d.frame == NOTHING && !d.started && d.frameBytes == 0
  }

  predicate Fits(e: Event, max: nat) { Encodable(e) && Size(Lines(e)) <= max }

  function After(d: State, e: Event, eol: seq<byte>): State {
    d.(out := d.out + [Normalised(e)], firstLine := false, skipLF := eol == [CR])
  }

  lemma EventThen(d: State, e: Event, rest: seq<byte>, eol: seq<byte>, max: nat)
    requires Idle(d, eol) && Eol(eol) && Fits(e, max)
    ensures Fed(d, Wire(e, eol) + rest, max) == Fed(After(d, e, eol), rest, max) && Idle(After(d, e, eol), eol)
  {
    FedConcat(d, Wire(e, eol), rest, max);
    EventFed(d, e, eol, max);
  }

  lemma EventFed(d: State, e: Event, eol: seq<byte>, max: nat)
    requires Idle(d, eol) && Eol(eol) && Fits(e, max)
    ensures Fed(d, Wire(e, eol), max) == After(d, e, eol)
  {
    LinesClean(e);
    FedConcat(d, WireLines(Lines(e), eol), eol, max);
    LinesFed(d, Lines(e), eol, max);
    LinesBuild(e);
    BlankFed(Fed(d, WireLines(Lines(e), eol), max), eol, max);
    var n := Normalised(e);
    if n.hasData { assert (n.data.value + [LF])[..|n.data.value + [LF]| - 1] == n.data.value; }
  }

  function NormalisedAll(es: seq<Event>): seq<Event> {
    if es == [] then [] else [Normalised(es[0])] + NormalisedAll(es[1..])
  }

  function AfterAll(d: State, es: seq<Event>, eol: seq<byte>): State
    decreases |es|
  {
    if es == [] then d else AfterAll(After(d, es[0], eol), es[1..], eol)
  }

  lemma {:induction false} AfterAllOut(d: State, es: seq<Event>, eol: seq<byte>)
    ensures AfterAll(d, es, eol).out == d.out + NormalisedAll(es)
    ensures Idle(d, eol) ==> Idle(AfterAll(d, es, eol), eol)
    decreases |es|
  {
    if es != [] {
      AfterAllOut(After(d, es[0], eol), es[1..], eol);
      assert d.out + [Normalised(es[0])] + NormalisedAll(es[1..]) == d.out + NormalisedAll(es);
    }
  }

  lemma {:induction false} AllFed(d: State, es: seq<Event>, eol: seq<byte>, max: nat)
    requires Idle(d, eol) && Eol(eol) && forall i | 0 <= i < |es| :: Fits(es[i], max)
    ensures Fed(d, WireAll(es, eol), max) == AfterAll(d, es, eol)
    decreases |es|
  {
    if es != [] {
      EventThen(d, es[0], WireAll(es[1..], eol), eol, max);
      AllFed(After(d, es[0], eol), es[1..], eol, max);
    }
  }

  // The lines of an encodable event are clean.

  lemma {:induction false} AsciiValid(s: seq<byte>)
    requires forall i | 0 <= i < |s| :: s[i] < 0x80
    ensures Valid(s)
    decreases |s|
  {
    if s != [] {
      assert RuneSize(s) == 1;
      AsciiValid(s[1..]);
    }
  }

  lemma FieldClean(name: seq<byte>, value: seq<byte>)
    requires OneLine(value) && forall i | 0 <= i < |name| :: name[i] < 0x80 && name[i] != LF && name[i] != CR
    ensures Clean(Field(name, value))
  {
    var head := name + [COLON] + if value == [] then [] else [SPACE];
    AsciiValid(head);
    ValidConcat(head, value);
    assert Field(name, value) == head + value;
  }

  /** Cutting valid text at a line feed leaves valid text on both sides. */
  lemma {:induction false} CutValid(s: seq<byte>, n: nat)
    requires Valid(s) && n < |s| && s[n] == LF
    ensures Valid(s[..n]) && Valid(s[n + 1..])
    decreases |s|
  {
    var size := RuneSize(s);
    assert IsRune(s[..size]);
    if n == 0 {
      assert size == 1;
    } else {
      InnerTail(s, n);
      assert s[size..][n - size] == s[n];
      CutValid(s[size..], n - size);
      assert s[size..][n - size + 1..] == s[n + 1..];
      OneRune(s[..size]);
      ValidConcat(s[..size], s[size..][..n - size]);
      SliceJoin(s, size, n);
    }
  }

  lemma SliceJoin(s: seq<byte>, m: nat, n: nat)
    requires m <= n <= |s|
    ensures s[..m] + s[m..][..n - m] == s[..n]
  {
  }

  lemma {:induction false} SplitClean(s: seq<byte>)
    requires Valid(s) && CR !in s
    ensures forall i | 0 <= i < |Split(s)| :: OneLine(Split(s)[i])
    decreases |s|
  {
    var n := IndexOf(s, LF);
    if n < |s| {
      CutValid(s, n);
      SplitClean(s[n + 1..]);
    }
  }

  lemma {:induction false} FieldsClean(name: seq<byte>, values: seq<seq<byte>>)
    requires forall i | 0 <= i < |values| :: OneLine(values[i])
    requires forall i | 0 <= i < |name| :: name[i] < 0x80 && name[i] != LF && name[i] != CR
    ensures AllClean(Fields(name, values))
    ensures |Fields(name, values)| == |values|
    decreases |values|
  {
    if values != [] {
      FieldClean(name, values[0]);
      FieldsClean(name, values[1..]);
    }
  }

  lemma DigitsClean(n: nat)
    ensures OneLine(Digits(n))
  {
    DigitsNumber(n);
    AsciiValid(Digits(n));
  }

  predicate AllClean(lines: seq<seq<byte>>) { forall i | 0 <= i < |lines| :: Clean(lines[i]) }

  lemma ConcatClean(a: seq<seq<byte>>, b: seq<seq<byte>>)
    requires AllClean(a) && AllClean(b)
    ensures AllClean(a + b)
  {
  }

  lemma OptionalClean(present: bool, name: seq<byte>, value: seq<byte>)
    requires forall i | 0 <= i < |name| :: name[i] < 0x80 && name[i] != LF && name[i] != CR
    requires present ==> OneLine(value)
    ensures AllClean(if present then [Field(name, value)] else [])
  {
    if present { FieldClean(name, value); }
  }

  lemma RestClean(e: Event)
    requires Encodable(e)
    ensures AllClean(Rest(Normalised(e)))
  {
    var n := Normalised(e);
    var data := if n.hasData then Fields(DATA, Split(n.data.value)) else [];
    var retry := if n.hasRetry && n.retry >= 0 then [Field(RETRY, Digits(n.retry / MILLISECOND))] else [];
    var id := if n.hasId then [Field(ID, n.id)] else [];
    if n.hasData {
      SplitClean(n.data.value);
      FieldsClean(DATA, Split(n.data.value));
    }
    if n.hasRetry {
      DigitsClean(n.retry / MILLISECOND);
      OptionalClean(true, RETRY, Digits(n.retry / MILLISECOND));
    }
    OptionalClean(n.hasId, ID, n.id);
    ConcatClean(retry, data);
    ConcatClean(id, retry + data);
  }

  lemma LinesClean(e: Event)
    requires Encodable(e)
    ensures Lines(e) != [] && AllClean(Lines(e))
  {
    var n := Normalised(e);
    var kind := if n.hasKind then [Field(EVENT, n.kind)] else [];
    FieldsClean([], n.comments);
    OptionalClean(n.hasKind, EVENT, n.kind);
    RestClean(e);
    ConcatClean(kind, Rest(n));
    ConcatClean(Fields([], n.comments), kind + Rest(n));
    assert Lines(e) == Fields([], n.comments) + (kind + Rest(n));
    if n.hasData { assert |Fields(DATA, Split(n.data.value))| > 0; }
  }

  lemma {:induction false} ReplacedConcat(a: seq<byte>, b: seq<byte>, eol: seq<byte>)
    ensures Replaced(a + b, eol) == Replaced(a, eol) + Replaced(b, eol)
    decreases |a|
  {
    if a == [] {
      assert a + b == b;
    } else {
      assert (a + b)[1..] == a[1..] + b;
      ReplacedConcat(a[1..], b, eol);
    }
  }

  lemma {:induction false} ReplacedLine(line: seq<byte>, eol: seq<byte>)
    requires LF !in line
    ensures Replaced(line + [LF], eol) == line + eol
    decreases |line|
  {
    if line == [] {
      assert line + [LF] == [LF] && [LF][1..] == [];
      assert Replaced([LF], eol) == eol + [] == eol;
    } else {
      assert (line + [LF])[1..] == line[1..] + [LF];
      ReplacedLine(line[1..], eol);
      assert [line[0]] + (line[1..] + eol) == line + eol;
    }
  }

  lemma {:induction false} LinesReplaced(lines: seq<seq<byte>>, eol: seq<byte>)
    requires AllClean(lines)
    ensures Replaced(WireLines(lines, [LF]), eol) == WireLines(lines, eol)
    decreases |lines|
  {
    if lines != [] {
      ReplacedConcat(lines[0] + [LF], WireLines(lines[1..], [LF]), eol);
      ReplacedLine(lines[0], eol);
      LinesReplaced(lines[1..], eol);
    }
  }

  /** A stream with other line endings is the encoder's output with every line
      feed replaced: none is inside a line. */
  lemma {:induction false} WireReplaced(es: seq<Event>, eol: seq<byte>)
    requires forall i | 0 <= i < |es| :: Encodable(es[i])
    ensures Replaced(WireAll(es, [LF]), eol) == WireAll(es, eol)
    decreases |es|
  {
    if es != [] {
      var lines := WireLines(Lines(es[0]), [LF]);
      LinesClean(es[0]);
      LinesReplaced(Lines(es[0]), eol);
      ReplacedConcat(lines, [LF], eol);
      ReplacedLine([], eol);
      assert [] + [LF] == [LF] && [] + eol == eol;
      ReplacedConcat(Wire(es[0], [LF]), WireAll(es[1..], [LF]), eol);
      WireReplaced(es[1..], eol);
    }
  }

  /** Whatever the line endings, decoding the encodings of any events gives
      those events back, and the stream may end there. */
  lemma RoundTrip(es: seq<Event>, eol: seq<byte>, max: nat)
    requires Eol(eol) && forall i | 0 <= i < |es| :: Fits(es[i], max)
    ensures var d := Fed(START, WireAll(es, eol), max); d.out == NormalisedAll(es) && AtRest(d)
  {
    AllFed(START, es, eol, max);
    AfterAllOut(START, es, eol);
    assert START.out + NormalisedAll(es) == NormalisedAll(es);
  }

  /** In the middle of a frame: nothing returned, nothing wrong, but open. */
  predicate Open(d: State, t: State) {
    t.out == d.out && t.failed.None? && (t.started || (t.line != [] && t.line[0] != BOM[0]))
  }

  lemma {:induction false} CutLines(d: State, lines: seq<seq<byte>>, w: seq<byte>, max: nat)
    requires Ready(d, [LF]) && AllClean(lines) && d.frameBytes + Size(lines) <= max
    requires w < WireLines(lines, [LF]) + [LF] && (w == [] ==> d.started)
    ensures Open(d, Fed(d, w, max))
    decreases |lines|
  {
    var whole := WireLines(lines, [LF]) + [LF];
    if lines == [] {
      assert w == [];
    } else {
      var line := lines[0];
      assert whole == line + [LF] + (WireLines(lines[1..], [LF]) + [LF]);
      if |w| <= |line| {
        assert w == line[..|w|];
        BytesFed(d, w, max);
      } else {
        var first, rest := line + [LF], w[|line| + 1..];
        assert w == first + rest;
        assert rest == whole[|line| + 1..|w|];
        FedConcat(d, first, rest, max);
        LineFed(d, line, [LF], max);
        CutLines(Fed(d, first, max), lines[1..], rest, max);
      }
    }
  }

  lemma {:induction false} CutFed(d: State, es: seq<Event>, w: seq<byte>, max: nat) returns (k: nat)
    requires Idle(d, [LF]) && forall i | 0 <= i < |es| :: Fits(es[i], max)
    requires w <= WireAll(es, [LF])
    ensures k <= |es| && WireAll(es[..k], [LF]) <= w
    ensures k < |es| ==> |w| < |WireAll(es[..k], [LF])| + |Wire(es[k], [LF])|
    ensures var t := Fed(d, w, max);
      && t.out == d.out + NormalisedAll(es[..k]) && t.failed.None?
      && (AtRest(t) <==> w == WireAll(es[..k], [LF]))
    decreases |es|
  {
    if es == [] {
      k := 0;
    } else {
      var first, rest := Wire(es[0], [LF]), WireAll(es[1..], [LF]);
      if |w| < |first| {
        k := 0;
        assert es[..0] == [] && d.out + [] == d.out;
        if w != [] {
          LinesClean(es[0]);
          assert w < first;
          CutLines(d, Lines(es[0]), w, max);
        }
      } else {
        var more := w[|first|..];
        CutPast(first, rest, w);
        FedConcat(d, first, more, max);
        EventFed(d, es[0], [LF], max);
        var j := CutFed(After(d, es[0], [LF]), es[1..], more, max);
        k := j + 1;
        CutStep(es, j, w, d.out);
      }
    }
  }

  lemma CutPast(first: seq<byte>, rest: seq<byte>, w: seq<byte>)
    requires w <= first + rest && |w| >= |first|
    ensures w == first + w[|first|..] && w[|first|..] <= rest
  {
    assert first == (first + rest)[..|first|] && rest == (first + rest)[|first|..];
  }

  lemma CutStep(es: seq<Event>, j: nat, w: seq<byte>, out: seq<Event>)
    requires es != [] && j < |es| && Wire(es[0], [LF]) <= w
    ensures var first := Wire(es[0], [LF]);
      && WireAll(es[..j + 1], [LF]) == first + WireAll(es[1..][..j], [LF])
      && (WireAll(es[1..][..j], [LF]) <= w[|first|..] ==> WireAll(es[..j + 1], [LF]) <= w)
      && (w[|first|..] == WireAll(es[1..][..j], [LF]) <==> w == WireAll(es[..j + 1], [LF]))
      && out + [Normalised(es[0])] + NormalisedAll(es[1..][..j]) == out + NormalisedAll(es[..j + 1])
  {
    var first := Wire(es[0], [LF]);
    assert es[..j + 1][0] == es[0] && es[..j + 1][1..] == es[1..][..j];
    assert w == first + w[|first|..];
  }

  /** A stream cut anywhere yields exactly the frames that are complete in it,
      and is at rest only if it was cut between frames. */
  lemma Truncated(es: seq<Event>, w: seq<byte>, max: nat) returns (k: nat)
    requires w <= WireAll(es, [LF]) && forall i | 0 <= i < |es| :: Fits(es[i], max)
    ensures k <= |es| && WireAll(es[..k], [LF]) <= w
    ensures k < |es| ==> |w| < |WireAll(es[..k], [LF])| + |Wire(es[k], [LF])|
    ensures var d := Fed(START, w, max);
      d.out == NormalisedAll(es[..k]) && d.failed.None? && (AtRest(d) <==> w == WireAll(es[..k], [LF]))
  {
    k := CutFed(START, es, w, max);
    assert START.out + NormalisedAll(es[..k]) == NormalisedAll(es[..k]);
  }
}
