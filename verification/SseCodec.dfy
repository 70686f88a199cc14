/** The encoder and the decoder as they run: a frame buffer that is appended to,
    and a decoder whose fields change with every byte. */
module SseCodec {
  import opened Ascii
  import opened Options
  import opened Sequences
  import opened Utf8
  import opened SseWire
  import opened Sse

  lemma {:induction false} WireConcat(a: seq<seq<byte>>, b: seq<seq<byte>>, eol: seq<byte>)
    ensures WireLines(a + b, eol) == WireLines(a, eol) + WireLines(b, eol)
    decreases |a|
  {
    if a == [] {
      assert a + b == b;
    } else {
      assert (a + b)[1..] == a[1..] + b;
      WireConcat(a[1..], b, eol);
      Regroup(a[0] + eol, WireLines(a[1..], eol), WireLines(b, eol));
    }
  }

  lemma {:induction false} FieldsMore(name: seq<byte>, values: seq<seq<byte>>, i: nat)
    requires i < |values|
    ensures Fields(name, values[..i + 1]) == Fields(name, values[..i]) + [Field(name, values[i])]
    decreases i
  {
    if i > 0 {
      TakeAfterFirst(values, i + 1);
      TakeAfterFirst(values, i);
      FieldsMore(name, values[1..], i - 1);
    }
  }

  function Written(frame: seq<byte>, name: seq<byte>, value: seq<byte>): seq<byte> {
    frame + Field(name, value) + [LF]
  }

  method WriteField(frame: seq<byte>, name: seq<byte>, value: seq<byte>) returns (r: seq<byte>)
    ensures r == Written(frame, name, value)
  {
    r := frame;
    if name != [] { r := r + name; }
    r := r + [COLON];
    if |value| > 0 {
      r := r + [SPACE];
      r := r + value;
    }
    r := r + [LF];
  }

  method WriteFields(frame: seq<byte>, name: seq<byte>, values: seq<seq<byte>>) returns (r: seq<byte>)
    ensures r == frame + WireLines(Fields(name, values), [LF])
  {
    r := frame;
    for i := 0 to |values|
      invariant r == frame + WireLines(Fields(name, values[..i]), [LF])
    {
      FieldsMore(name, values, i);
      WireConcat(Fields(name, values[..i]), [Field(name, values[i])], [LF]);
      OneWired(Field(name, values[i]));
      r := WriteField(r, name, values[i]);
    }
    assert values[..|values|] == values;
  }

  lemma OneWired(line: seq<byte>)
    ensures WireLines([line], [LF]) == line + [LF]
  {
    assert [line][1..] == [];
  }

  method WriteOptional(frame: seq<byte>, present: bool, name: seq<byte>, value: seq<byte>, ghost lines: seq<seq<byte>>)
    returns (r: seq<byte>)
    requires frame == WireLines(lines, [LF])
    ensures r == WireLines(lines + if present then [Field(name, value)] else [], [LF])
  {
    r := frame;
    if present {
      r := WriteField(frame, name, value);
      OneWired(Field(name, value));
      WireConcat(lines, [Field(name, value)], [LF]);
    } else {
      assert lines + [] == lines;
    }
  }

  /** Refuses what has no fields or cannot be put on lines; writes the rest. */
  method Encode(e: Event) returns (ok: bool, frame: seq<byte>)
    requires e.retry <= MAX_INT64
    ensures ok <==> Encodable(e)
    ensures ok ==> frame == Wire(e, [LF])
  {
    var n := Normalised(e);
    ok := CheckEvent(n);
    if !ok { return false, []; }
    var ms := if n.hasRetry then Digits(n.retry / MILLISECOND) else [];
    var values := if n.hasData then Split(n.data.value) else [];
    frame := WriteLines(n, ms, values);
    LinesOf(n, ms, values);
    frame := frame + [LF];
  }

  method WriteLines(n: Event, ms: seq<byte>, values: seq<seq<byte>>) returns (frame: seq<byte>)
    ensures frame == WireLines(LineList(n, ms, values), [LF])
  {
    frame := WriteFields([], [], n.comments);
    ghost var lines := Fields([], n.comments);
    frame := WriteOptional(frame, n.hasKind, EVENT, n.kind, lines);
    lines := lines + if n.hasKind then [Field(EVENT, n.kind)] else [];
    frame := WriteOptional(frame, n.hasId, ID, n.id, lines);
    lines := lines + if n.hasId then [Field(ID, n.id)] else [];
    frame := WriteOptional(frame, n.hasRetry, RETRY, ms, lines);
    lines := lines + if n.hasRetry then [Field(RETRY, ms)] else [];
    WireConcat(lines, Fields(DATA, values), [LF]);
    frame := WriteFields(frame, DATA, values);
  }

  function LineList(n: Event, ms: seq<byte>, values: seq<seq<byte>>): seq<seq<byte>> {
    Fields([], n.comments) + (if n.hasKind then [Field(EVENT, n.kind)] else [])
    + (if n.hasId then [Field(ID, n.id)] else []) + (if n.hasRetry then [Field(RETRY, ms)] else [])
    + Fields(DATA, values)
  }

  lemma LinesOf(n: Event, ms: seq<byte>, values: seq<seq<byte>>)
    requires Normalised(n) == n && (n.hasRetry ==> n.retry >= 0 && ms == Digits(n.retry / MILLISECOND))
    requires values == if n.hasData then Split(n.data.value) else []
    ensures LineList(n, ms, values) == Lines(n)
  {
    var a, b := Fields([], n.comments), if n.hasKind then [Field(EVENT, n.kind)] else [];
    var c, d := if n.hasId then [Field(ID, n.id)] else [], if n.hasRetry then [Field(RETRY, ms)] else [];
    var e := Fields(DATA, values);
    Regroup(c, d, e);
    Regroup(b, c + d, e);
    Regroup(b, c, d);
    Regroup(a, b + c + d, e);
    Regroup(a, b + c, d);
    Regroup(a, b, c);
  }

  method CheckEvent(n: Event) returns (ok: bool)
    requires Normalised(n) == n && n.retry <= MAX_INT64
    ensures ok <==> Encodable(n)
  {
    if !n.hasData && !n.hasKind && !n.hasId && !n.hasRetry && |n.comments| == 0 { return false; }
    if n.hasData && (!Valid(n.data.value) || CR in n.data.value) { return false; }
    if n.hasKind && !OneLine(n.kind) { return false; }
    if n.hasId && (!OneLine(n.id) || 0 in n.id) { return false; }
    if n.hasRetry && (n.retry < 0 || n.retry % MILLISECOND != 0) { return false; }
    for i := 0 to |n.comments|
      invariant forall j | 0 <= j < i :: OneLine(n.comments[j])
    {
      if !OneLine(n.comments[i]) { return false; }
    }
    return true;
  }

  /** What a complete line does. */
  function Accepted(d: State, line: seq<byte>): State {
    if line == [] then Finished(d) else d.(started := true, frame := Consumed(d.frame, line))
  }

  datatype LineResult = Line(line: seq<byte>) | NoLine(end: Result)
  datatype Result = Got(event: Event) | Eof | Incomplete | Failed(why: Failure)

  datatype Taken = More | Ended(line: seq<byte>) | Bad(why: Failure)

  /** How the input ends in this state. */
  function Ending(d: State): Result {
    if d.failed.Some? then Failed(d.failed.value)
    else if !Valid(WithoutBom(d)) then Failed(InvalidUtf8)
    else if AtRest(d) then Eof
    else Incomplete
  }

  class Decoder {
    const input: seq<byte>
    const max: nat
    var pos: nat
    var frame: Frame
    var started: bool
    var firstLine: bool
    var skipLF: bool
    var frameBytes: nat
    var line: seq<byte>
    ghost var out: seq<Event>

    ghost function View(): State
      reads this
    {
      State(frame, started, firstLine, skipLF, frameBytes, line, out, None)
    }

    constructor (input: seq<byte>, max: nat)
      ensures View() == START && pos == 0 && this.input == input && this.max == max
    {
      this.input, this.max := input, max;
      pos, frame, started, firstLine, skipLF, frameBytes, line, out := 0, NOTHING, false, true, false, 0, [], [];
    }

    method ReadLine() returns (r: LineResult)
      requires pos <= |input| && line == []
      modifies this
      ensures old(pos) <= pos <= |input| && out == old(out)
      ensures var d := Fed(old(View()), input[old(pos)..pos], max);
        && (r.Line? ==> pos > old(pos) && line == [] && d == Accepted(View(), r.line))
        && (r.NoLine? ==> !r.end.Got? && r.end == Ending(d) && d.out == old(out))
        && (r.NoLine? && d.failed.None? ==> pos == |input|)
    {
      ghost var start, before := pos, View();
      while pos < |input|
        invariant start <= pos <= |input| && out == before.out
        invariant Fed(before, input[start..pos], max) == View()
      {
        FedMore(before, input, start, pos, max);
        var t := Take(input[pos]);
        pos := pos + 1;
        if t.Ended? { return Line(t.line); }
        if t.Bad? { return NoLine(Failed(t.why)); }
      }
      var last := TakeLine();
      if |last| > 0 && !Valid(last) { return NoLine(Failed(InvalidUtf8)); }
      if |last| == 0 && !started { return NoLine(Eof); }
      return NoLine(Incomplete);
    }

    /** One byte: a CR ended the line before it if `skipLF` is set. */
    method Take(b: byte) returns (r: Taken)
      modifies this`skipLF, this`frameBytes, this`line, this`firstLine
      ensures var d := Feed(old(View()), b, max);
        && (r.More? ==> d == View())
        && (r.Ended? ==> line == [] && d == Accepted(View(), r.line))
        && (r.Bad? ==> d.failed == Some(r.why) && d.out == out)
    {
      if skipLF {
        skipLF := false;
        if b == LF { return More; }
      }
      if b == CR || b == LF {
        var full := TakeLine();
        if !Valid(full) { return Bad(InvalidUtf8); }
        skipLF := b == CR;
        return Ended(full);
      }
      if frameBytes >= max { return Bad(TooLarge); }
      frameBytes := frameBytes + 1;
      line := line + [b];
      return More;
    }

    method TakeLine() returns (full: seq<byte>)
      modifies this`line, this`firstLine
      ensures full == WithoutBom(old(View())) && line == [] && !firstLine
    {
      full := if firstLine && BOM <= line then line[3..] else line;
      firstLine, line := false, [];
    }

    /** The next event, or how the input ended. */
    method Decode() returns (r: Result)
      requires pos <= |input| && line == []
      modifies this
      ensures old(pos) <= pos <= |input|
      ensures var d := Fed(old(View()), input[old(pos)..pos], max);
        && (r.Got? ==> d == View() && line == [] && d.out == old(out) + [r.event])
        && (r.Got? ==> pos > old(pos) && d.failed.None?)
        && (!r.Got? ==> r == Ending(d) && d.out == old(out))
        && (!r.Got? && d.failed.None? ==> pos == |input|)
    {
      ghost var start, before := pos, View();
      while true
        invariant start <= pos <= |input| && line == [] && out == before.out
        invariant Fed(before, input[start..pos], max) == View()
        decreases |input| - pos
      {
        ghost var from := pos;
        var l := ReadLine();
        FedJoin(before, input, start, from, pos, max);
        if l.NoLine? { return l.end; }
        if l.line == [] {
          var ok, event := FinishFrame();
          if ok { return Got(event); }
        } else {
          started := true;
          frame := Consumed(frame, l.line);
        }
      }
    }

    method FinishFrame() returns (ok: bool, event: Event)
      requires line == []
      modifies this
      ensures View() == Finished(old(View())) && pos == old(pos)
      ensures ok == old(frame.recognized) && out == old(out) + if ok then [event] else []
    {
      ok, event := frame.recognized, frame.event;
      if event.data.Some? && event.data.value != [] {
        event := event.(data := Some(event.data.value[..|event.data.value| - 1]));
      }
      frame, started, frameBytes := NOTHING, false, 0;
      if ok { out := out + [event]; }
    }
  }

  /** A decoder that has failed stays as it is. */
  lemma {:induction false} FedFailed(d: State, rest: seq<byte>, max: nat)
    requires d.failed.Some?
    ensures Fed(d, rest, max) == d
    decreases |rest|
  {
    if rest != [] { FedFailed(d, rest[1..], max); }
  }

  /** Decoding until there is no further event: the events and the end of the
      specified decoding of the whole input. */
  method DecodeAll(input: seq<byte>, max: nat) returns (events: seq<Event>, end: Result)
    ensures !end.Got?
    ensures events == Fed(START, input, max).out && end == Ending(Fed(START, input, max))
  {
    var decoder := new Decoder(input, max);
    events := [];
    while true
      invariant decoder.pos <= |input| && decoder.line == [] && decoder.input == input && decoder.max == max
      invariant fresh(decoder) && decoder.View() == Fed(START, input[0..decoder.pos], max) && decoder.out == events
      decreases |input| - decoder.pos
    {
      ghost var from := decoder.pos;
      var r := decoder.Decode();
      FedJoin(START, input, 0, from, decoder.pos, max);
      if !r.Got? {
        ghost var d := Fed(START, input[0..decoder.pos], max);
        if d.failed.Some? { FedFailed(d, input[decoder.pos..], max); }
        FedJoin(START, input, 0, decoder.pos, |input|, max);
        assert input[0..|input|] == input && input[|input|..] == [];
        return events, r;
      }
      events := events + [r.event];
    }
  }

  /** What the decoder makes of an encoded stream that is cut anywhere: exactly
      the events whose frames are complete, then the end of the input if it was
      cut between frames; in the middle of a frame it reports the cut, or bad
      text where the cut goes through a rune. */
  method DecodeCut(ghost es: seq<Event>, w: seq<byte>, max: nat) returns (events: seq<Event>, end: Result, ghost k: nat)
    requires w <= WireAll(es, [LF]) && forall i | 0 <= i < |es| :: Fits(es[i], max)
    ensures k <= |es| && WireAll(es[..k], [LF]) <= w && events == NormalisedAll(es[..k])
    ensures k < |es| ==> |w| < |WireAll(es[..k], [LF])| + |Wire(es[k], [LF])|
    ensures end.Eof? <==> w == WireAll(es[..k], [LF])
    ensures !end.Eof? ==> end.Incomplete? || end == Failed(InvalidUtf8)
  {
    k := Truncated(es, w, max);
    events, end := DecodeAll(w, max);
  }

  /** Encoding and decoding any events, with any of the three line endings. */
  method DecodeWire(ghost es: seq<Event>, eol: seq<byte>, w: seq<byte>, max: nat)
      returns (events: seq<Event>, end: Result)
    requires Eol(eol) && w == WireAll(es, eol) && forall i | 0 <= i < |es| :: Fits(es[i], max)
    ensures events == NormalisedAll(es) && end.Eof?
  {
    RoundTrip(es, eol, max);
    events, end := DecodeAll(w, max);
  }

  lemma FedJoin(d: State, input: seq<byte>, start: nat, mid: nat, end: nat, max: nat)
    requires start <= mid <= end <= |input|
    ensures Fed(d, input[start..end], max) == Fed(Fed(d, input[start..mid], max), input[mid..end], max)
  {
    assert input[start..end] == input[start..mid] + input[mid..end];
    FedConcat(d, input[start..mid], input[mid..end], max);
  }

  lemma FedMore(d: State, input: seq<byte>, start: nat, pos: nat, max: nat)
    requires start <= pos < |input|
    ensures Fed(d, input[start..pos + 1], max) == Feed(Fed(d, input[start..pos], max), input[pos], max)
  {
    assert input[start..pos + 1] == input[start..pos] + [input[pos]];
    FedConcat(d, input[start..pos], [input[pos]], max);
    assert [input[pos]][1..] == [];
  }
}
