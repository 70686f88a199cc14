/** Server-sent events on the wire: the fields of an event, the lines they
    become, and what one line does to the frame being decoded (sections 9.2.5
    and 9.2.6 of the HTML Living Standard). */
module SseWire {
  import opened Ascii
  import opened Options
  import opened Sequences
  import opened Utf8

  const LF: byte := 0x0A
  const CR: byte := 0x0D
  const SPACE: byte := 0x20
  const DATA: seq<byte> := [0x64, 0x61, 0x74, 0x61]
  const EVENT: seq<byte> := [0x65, 0x76, 0x65, 0x6E, 0x74]
  const ID: seq<byte> := [0x69, 0x64]
  const RETRY: seq<byte> := [0x72, 0x65, 0x74, 0x72, 0x79]
  const MILLISECOND: nat := 1_000_000
  const MAX_INT64: nat := 0x7FFF_FFFF_FFFF_FFFF

  /** `data` is absent where the source has a nil slice; `retry` is in nanoseconds. */
  datatype Event = Event(data: Option<seq<byte>>, kind: seq<byte>, id: seq<byte>, retry: int, comments: seq<seq<byte>>,
                         hasData: bool, hasKind: bool, hasId: bool, hasRetry: bool)

  const EMPTY: Event := Event(None, [], [], 0, [], false, false, false, false)

  /** Presence made precise: a value that is set counts as present. */
  function Normalised(e: Event): Event {
    e.(data := if e.hasData || e.data.Some? then Some(if e.data.Some? then e.data.value else []) else None,
       hasData := e.hasData || e.data.Some?, hasKind := e.hasKind || e.kind != [],
       hasId := e.hasId || e.id != [], hasRetry := e.hasRetry || e.retry != 0)
  }

  predicate OneLine(s: seq<byte>) { Valid(s) && LF !in s && CR !in s }

  /** What the encoder accepts. */
  predicate Encodable(e: Event) {
    var n := Normalised(e);
    && (n.hasData || n.hasKind || n.hasId || n.hasRetry || n.comments != [])
    && (n.hasData ==> Valid(n.data.value) && CR !in n.data.value)
    && (n.hasKind ==> OneLine(n.kind))
    && (n.hasId ==> OneLine(n.id) && 0 !in n.id)
    && (n.hasRetry ==> 0 <= n.retry <= MAX_INT64 && n.retry % MILLISECOND == 0)
    && (forall i | 0 <= i < |n.comments| :: OneLine(n.comments[i]))
  }

  function Field(name: seq<byte>, value: seq<byte>): seq<byte> {
    name + [COLON] + if value == [] then [] else [SPACE] + value
  }

  // Decimal numbers.

  function Digits(n: nat): seq<byte> {
    if n < 10 then [0x30 + n] else Digits(n / 10) + [0x30 + n % 10]
  }

  function Number(ds: seq<byte>): nat
    requires forall i | 0 <= i < |ds| :: IsDigit(ds[i])
  {
    if ds == [] then 0
    else
      assert IsDigit(ds[|ds| - 1]);
      var last: int := ds[|ds| - 1];
      10 * Number(ds[..|ds| - 1]) + (last - 0x30)
  }

  lemma {:induction false} DigitsNumber(n: nat)
    ensures Digits(n) != [] && (forall i | 0 <= i < |Digits(n)| :: IsDigit(Digits(n)[i])) && Number(Digits(n)) == n
    decreases n
  {
    if n >= 10 {
      DigitsNumber(n / 10);
      assert Digits(n)[..|Digits(n)| - 1] == Digits(n / 10);
    } else {
      assert Digits(n)[..0] == [];
    }
  }

  function ParseRetry(value: seq<byte>): Option<nat> {
    if value == [] || exists i | 0 <= i < |value| :: !IsDigit(value[i]) then None
    else if Number(value) > MAX_INT64 / MILLISECOND then None
    else Some(Number(value) * MILLISECOND)
  }

  // Lines.

  /** The position of the first `b`, or the length. */
  function IndexOf(s: seq<byte>, b: byte): (n: nat)
    ensures n <= |s| && (n < |s| ==> s[n] == b) && (forall i | 0 <= i < n :: s[i] != b)
  {
    if s == [] || s[0] == b then 0 else 1 + IndexOf(s[1..], b)
  }

  function Split(s: seq<byte>): (lines: seq<seq<byte>>)
    ensures lines != []
    decreases |s|
  {
    var n := IndexOf(s, LF);
    if n == |s| then [s] else [s[..n]] + Split(s[n + 1..])
  }

  function FieldValue(value: seq<byte>): seq<byte> {
    if value != [] && value[0] == SPACE then value[1..] else value
  }

  /** A frame under construction; its data still ends in the last LF. */
  datatype Frame = Frame(event: Event, recognized: bool)

  const NOTHING: Frame := Frame(EMPTY, false)

  datatype Name = Data | Kind | Id | Retry | Other

  function NameOf(name: seq<byte>): Name {
    if name == DATA then Data
    else if name == EVENT then Kind
    else if name == ID then Id
    else if name == RETRY then Retry
    else Other
  }

  lemma Names()
    ensures NameOf(DATA) == Data && NameOf(EVENT) == Kind && NameOf(ID) == Id && NameOf(RETRY) == Retry
    ensures COLON !in DATA && COLON !in EVENT && COLON !in ID && COLON !in RETRY
  {
    assert EVENT[0] != RETRY[0];
  }

  function DataOf(f: Frame): seq<byte> { if f.event.data.Some? then f.event.data.value else [] }

  function WithData(f: Frame, data: seq<byte>): Frame { Frame(f.event.(data := Some(data), hasData := true), true) }

  function Named(f: Frame, name: Name, value: seq<byte>): Frame {
    var e := f.event;
    match name
    case Data => WithData(f, DataOf(f) + value + [LF])
    case Kind => Frame(e.(kind := value, hasKind := true), true)
    case Id => if 0 in value then f else Frame(e.(id := value, hasId := true), true)
    case Retry =>
      var retry := ParseRetry(value);
      if retry.None? then f else Frame(e.(retry := retry.value, hasRetry := true), true)
    case Other => f
  }

  function Consumed(f: Frame, line: seq<byte>): Frame {
    var colon := IndexOf(line, COLON);
    if line != [] && colon == 0
    then Frame(f.event.(comments := f.event.comments + [FieldValue(line[1..])]), true)
    else if colon == |line| then Named(f, NameOf(line), [])
    else Named(f, NameOf(line[..colon]), FieldValue(line[colon + 1..]))
  }

  function ConsumedAll(f: Frame, lines: seq<seq<byte>>): Frame
    decreases |lines|
  {
    if lines == [] then f else ConsumedAll(Consumed(f, lines[0]), lines[1..])
  }

  function Fields(name: seq<byte>, values: seq<seq<byte>>): seq<seq<byte>> {
    if values == [] then [] else [Field(name, values[0])] + Fields(name, values[1..])
  }

  /** The lines of one encoded event, without the blank one. */
  function Lines(e: Event): seq<seq<byte>> {
    var n := Normalised(e);
    Fields([], n.comments)
    + ((if n.hasKind then [Field(EVENT, n.kind)] else [])
       + ((if n.hasId then [Field(ID, n.id)] else [])
          + ((if n.hasRetry && n.retry >= 0 then [Field(RETRY, Digits(n.retry / MILLISECOND))] else [])
             + (if n.hasData then Fields(DATA, Split(n.data.value)) else []))))
  }

  lemma {:induction false} ConsumedConcat(f: Frame, a: seq<seq<byte>>, b: seq<seq<byte>>)
    ensures ConsumedAll(f, a + b) == ConsumedAll(ConsumedAll(f, a), b)
    decreases |a|
  {
    if a == [] {
      assert a + b == b;
    } else {
      assert (a + b)[1..] == a[1..] + b;
      ConsumedConcat(Consumed(f, a[0]), a[1..], b);
    }
  }

  lemma ConsumedField(f: Frame, name: seq<byte>, value: seq<byte>)
    requires name != [] && COLON !in name
    ensures Consumed(f, Field(name, value)) == Named(f, NameOf(name), value)
  {
    var line := Field(name, value);
    var colon := IndexOf(line, COLON);
    assert line[|name|] == COLON;
    assert forall i | 0 <= i < |name| :: line[i] == name[i];
    assert colon == |name|;
    assert line[..colon] == name;
    assert line[colon + 1..] == if value == [] then [] else [SPACE] + value;
  }

  lemma ConsumedComment(f: Frame, value: seq<byte>)
    ensures Consumed(f, Field([], value)) == Frame(f.event.(comments := f.event.comments + [value]), true)
  {
    var line := Field([], value);
    assert line[0] == COLON;
    assert line[1..] == if value == [] then [] else [SPACE] + value;
  }

  /** Every line followed by LF. */
  function Terminated(lines: seq<seq<byte>>): seq<byte> {
    if lines == [] then [] else lines[0] + [LF] + Terminated(lines[1..])
  }

  lemma {:induction false} SplitJoins(s: seq<byte>)
    ensures Terminated(Split(s)) == s + [LF]
    decreases |s|
  {
    var n := IndexOf(s, LF);
    if n == |s| {
      assert Split(s)[1..] == [];
    } else {
      SplitJoins(s[n + 1..]);
      assert Split(s)[1..] == Split(s[n + 1..]);
      assert s == s[..n] + [LF] + s[n + 1..];
    }
  }

  lemma {:induction false} ConsumedData(f: Frame, values: seq<seq<byte>>)
    requires values != []
    ensures ConsumedAll(f, Fields(DATA, values)) == WithData(f, DataOf(f) + Terminated(values))
    decreases |values|
  {
    Names();
    ConsumedField(f, DATA, values[0]);
    var before := DataOf(f);
    var g := WithData(f, before + values[0] + [LF]);
    var rest := Fields(DATA, values[1..]);
    assert Fields(DATA, values)[1..] == rest;
    Regroup(before, values[0], [LF]);
    Regroup(before, values[0] + [LF], Terminated(values[1..]));
    assert ConsumedAll(f, Fields(DATA, values)) == ConsumedAll(g, rest);
    if |values| > 1 {
      ConsumedData(g, values[1..]);
    } else {
      assert values[1..] == [] && rest == [];
      NothingAfter(before + values[0] + [LF]);
    }
  }

  lemma {:induction false} ConsumedComments(f: Frame, values: seq<seq<byte>>)
    ensures ConsumedAll(f, Fields([], values)) ==
            Frame(f.event.(comments := f.event.comments + values), f.recognized || values != [])
    decreases |values|
  {
    if values == [] {
      assert f.event.comments + [] == f.event.comments;
    } else {
      ConsumedComment(f, values[0]);
      assert Fields([], values)[1..] == Fields([], values[1..]);
      ConsumedComments(Consumed(f, Field([], values[0])), values[1..]);
      assert f.event.comments + [values[0]] + values[1..] == f.event.comments + values;
    }
  }

  lemma RetryParses(n: nat)
    requires n <= MAX_INT64 && n % MILLISECOND == 0
    ensures ParseRetry(Digits(n / MILLISECOND)) == Some(n)
  {
    DigitsNumber(n / MILLISECOND);
  }

  /** The frame as it stands after the lines of `e`. */
  function Built(e: Event): Frame {
    var n := Normalised(e);
    Frame(if n.hasData then n.(data := Some(n.data.value + [LF])) else n, true)
  }

  lemma ConsumedOptional(f: Frame, present: bool, name: seq<byte>, value: seq<byte>)
    requires name != [] && COLON !in name
    ensures ConsumedAll(f, if present then [Field(name, value)] else []) ==
            if present then Named(f, NameOf(name), value) else f
  {
    ConsumedField(f, name, value);
    assert [Field(name, value)][1..] == [];
  }

  /** The event with the fields before `id`. */
  function Head(n: Event): Event {
    EMPTY.(comments := n.comments, kind := n.kind, hasKind := n.hasKind)
  }

  function Rest(n: Event): seq<seq<byte>>
    requires n.hasData ==> n.data.Some?
  {
    (if n.hasId then [Field(ID, n.id)] else [])
    + ((if n.hasRetry && n.retry >= 0 then [Field(RETRY, Digits(n.retry / MILLISECOND))] else [])
       + (if n.hasData then Fields(DATA, Split(n.data.value)) else []))
  }

  lemma HeadBuilt(e: Event)
    requires Encodable(e)
    ensures ConsumedAll(NOTHING, Lines(e)) ==
            ConsumedAll(Frame(Head(Normalised(e)), e.comments != [] || Normalised(e).hasKind), Rest(Normalised(e)))
  {
    var n := Normalised(e);
    var kind := if n.hasKind then [Field(EVENT, n.kind)] else [];
    assert Lines(e) == Fields([], n.comments) + (kind + Rest(n));
    ConsumedConcat(NOTHING, Fields([], n.comments), kind + Rest(n));
    ConsumedComments(NOTHING, n.comments);
    assert EMPTY.comments + n.comments == n.comments;
    var f := Frame(EMPTY.(comments := n.comments), n.comments != []);
    ConsumedConcat(f, kind, Rest(n));
    Names();
    ConsumedOptional(f, n.hasKind, EVENT, n.kind);
  }

  lemma RestBuilt(n: Event, recognized: bool)
    requires n.hasId ==> 0 !in n.id
    requires n.hasRetry ==> 0 <= n.retry <= MAX_INT64 && n.retry % MILLISECOND == 0
    requires !n.hasId ==> n.id == []
    requires !n.hasRetry ==> n.retry == 0
    requires n.hasData <==> n.data.Some?
    ensures ConsumedAll(Frame(Head(n), recognized), Rest(n)) ==
            Frame(if n.hasData then n.(data := Some(n.data.value + [LF])) else n,
                  recognized || n.hasId || n.hasRetry || n.hasData)
  {
    var data := if n.hasData then Fields(DATA, Split(n.data.value)) else [];
    var retry := if n.hasRetry && n.retry >= 0 then [Field(RETRY, Digits(n.retry / MILLISECOND))] else [];
    var id := if n.hasId then [Field(ID, n.id)] else [];
    var f := Frame(Head(n), recognized);
    Names();
    ConsumedConcat(f, id, retry + data);
    ConsumedOptional(f, n.hasId, ID, n.id);
    var g := Frame(Head(n).(id := n.id, hasId := n.hasId), recognized || n.hasId);
    ConsumedConcat(g, retry, data);
    if n.hasRetry {
      ConsumedOptional(g, true, RETRY, Digits(n.retry / MILLISECOND));
      RetryParses(n.retry);
    }
    var h := Frame(g.event.(retry := n.retry, hasRetry := n.hasRetry), g.recognized || n.hasRetry);
    assert ConsumedAll(g, retry) == h;
    if n.hasData {
      ConsumedData(h, Split(n.data.value));
      SplitJoins(n.data.value);
      assert DataOf(h) + (n.data.value + [LF]) == n.data.value + [LF];
    }
  }

  /** The lines of an event build that event and nothing else. */
  lemma LinesBuild(e: Event)
    requires Encodable(e)
    ensures ConsumedAll(NOTHING, Lines(e)) == Built(e)
  {
    HeadBuilt(e);
    RestBuilt(Normalised(e), e.comments != [] || Normalised(e).hasKind);
  }
}
