/** The grammar of sections 2 to 7 of RFC 8259 as concrete syntax trees: every
    well-formed tree renders to one JSON text, insignificant whitespace included,
    and the JSON texts are exactly the renderings. */
module JsonGrammar {
  import opened Ascii
  import opened Utf8

  const QUOTE: byte := 0x22
  const BACKSLASH: byte := 0x5C
  const COMMA: byte := 0x2C
  const MINUS: byte := 0x2D
  const PLUS: byte := 0x2B
  const DOT: byte := 0x2E
  const ZERO: byte := 0x30
  const TRUE: seq<byte> := [0x74, 0x72, 0x75, 0x65]
  const FALSE: seq<byte> := [0x66, 0x61, 0x6C, 0x73, 0x65]
  const NULL: seq<byte> := [0x6E, 0x75, 0x6C, 0x6C]

  function Open(obj: bool): byte { if obj then 0x7B else 0x5B }
  function Close(obj: bool): byte { if obj then 0x7D else 0x5D }

  predicate IsWs(b: byte) { b == 0x20 || b == 0x09 || b == 0x0D || b == 0x0A }
  predicate IsExpMark(b: byte) { b == 0x65 || b == 0x45 }
  predicate IsHex(b: byte) { 0x30 <= b <= 0x39 || 0x61 <= b <= 0x66 || 0x41 <= b <= 0x46 }
  predicate IsSimpleEscape(b: byte) {
    b == QUOTE || b == BACKSLASH || b == 0x2F || b == 0x62 || b == 0x66 || b == 0x6E || b == 0x72 || b == 0x74
  }

  predicate AllWs(s: seq<byte>) { forall i | 0 <= i < |s| :: IsWs(s[i]) }
  predicate AllDigits(s: seq<byte>) { forall i | 0 <= i < |s| :: IsDigit(s[i]) }

  /** `key` is the member name with its colon, absent in arrays. */
  datatype Key = NoKey | Key(chars: seq<seq<byte>>, beforeColon: seq<byte>)

  datatype Value =
    | Literal(text: seq<byte>)
    | Number(minus: bool, whole: seq<byte>, frac: seq<byte>, exp: seq<byte>)
    | String(chars: seq<seq<byte>>)
    | Empty(obj: bool, ws: seq<byte>)
    | Container(obj: bool, ws: seq<byte>, entries: Entries)

  datatype Entries =
    | Last(key: Key, lead: seq<byte>, v: Value, after: seq<byte>)
    | More(key: Key, lead: seq<byte>, v: Value, after: seq<byte>, before: seq<byte>, rest: Entries)

  datatype Text = Text(before: seq<byte>, v: Value, after: seq<byte>)

  /** One char of section 7: unescaped, a two-character escape, or \uXXXX. */
  predicate IsChar(c: seq<byte>) {
    || (IsRune(c) && c[0] >= 0x20 && c[0] != QUOTE && c[0] != BACKSLASH)
    || (|c| == 2 && c[0] == BACKSLASH && IsSimpleEscape(c[1]))
    || (|c| == 6 && c[0] == BACKSLASH && c[1] == 0x75 && forall i | 2 <= i < 6 :: IsHex(c[i]))
  }

  predicate AllChars(cs: seq<seq<byte>>) { forall i | 0 <= i < |cs| :: IsChar(cs[i]) }

  predicate IsWhole(s: seq<byte>) { s == [ZERO] || (|s| > 0 && AllDigits(s) && s[0] != ZERO) }
  predicate IsFrac(s: seq<byte>) { s == [] || (|s| > 1 && s[0] == DOT && AllDigits(s[1..])) }
  predicate IsSign(b: byte) { b == PLUS || b == MINUS }
  predicate IsExp(s: seq<byte>) {
    s == [] || (|s| > 1 && IsExpMark(s[0]) &&
                var n := if IsSign(s[1]) then 2 else 1;
                |s| > n && AllDigits(s[n..]))
  }

  predicate WfKey(k: Key, obj: bool) {
    match k
    case NoKey => !obj
    case Key(chars, beforeColon) => obj && AllChars(chars) && AllWs(beforeColon)
  }

  predicate Wf(v: Value) {
    match v
    case Literal(text) => text == TRUE || text == FALSE || text == NULL
    case Number(_, whole, frac, exp) => IsWhole(whole) && IsFrac(frac) && IsExp(exp)
    case String(chars) => AllChars(chars)
    case Empty(_, ws) => AllWs(ws)
    case Container(obj, ws, entries) => AllWs(ws) && WfEntries(entries, obj)
  }

  predicate WfEntries(e: Entries, obj: bool) {
    && WfKey(e.key, obj) && AllWs(e.lead) && (!obj ==> e.lead == []) && Wf(e.v) && AllWs(e.after)
    && (e.More? ==> AllWs(e.before) && WfEntries(e.rest, obj))
  }

  predicate WfText(t: Text) { AllWs(t.before) && Wf(t.v) && AllWs(t.after) }

  function RenderString(cs: seq<seq<byte>>): seq<byte> { [QUOTE] + (Join(cs) + [QUOTE]) }

  function RenderKey(k: Key): seq<byte> {
    match k
    case NoKey => []
    case Key(chars, beforeColon) => RenderString(chars) + (beforeColon + [COLON])
  }

  function RenderNumber(v: Value): seq<byte>
    requires v.Number?
  {
    (if v.minus then [MINUS] else []) + (v.whole + (v.frac + v.exp))
  }

  function Render(v: Value): seq<byte> {
    match v
    case Literal(text) => text
    case Number(_, _, _, _) => RenderNumber(v)
    case String(chars) => RenderString(chars)
    case Empty(obj, ws) => [Open(obj)] + (ws + [Close(obj)])
    case Container(obj, ws, entries) => [Open(obj)] + (ws + RenderEntries(entries, obj))
  }

  function RenderEntries(e: Entries, obj: bool): seq<byte>
    decreases e, 1
  {
    RenderKey(e.key) + (e.lead + (Render(e.v) + RenderAfter(e, obj)))
  }

  function RenderAfter(e: Entries, obj: bool): seq<byte>
    decreases e, 0
  {
    e.after +
      match e
      case Last(_, _, _, _) => [Close(obj)]
      case More(_, _, _, _, before, rest) => [COMMA] + (before + RenderEntries(rest, obj))
  }

  function RenderText(t: Text): seq<byte> { t.before + (Render(t.v) + t.after) }

  /** `data` is a prefix of `text`. */
  ghost predicate Begins(data: seq<byte>, text: seq<byte>) {
    exists rest :: data + rest == text
  }

  lemma BeginsIsPrefix(data: seq<byte>, text: seq<byte>)
    ensures Begins(data, text) <==> data <= text
  {
    if data <= text { assert data + text[|data|..] == text; }
  }

  /** The number of non-empty containers around the deepest value. */
  function Height(v: Value): nat {
    match v
    case Container(_, _, entries) => HeightEntries(entries)
    case _ => 0
  }

  function HeightEntries(e: Entries): nat {
    var h := 1 + Height(e.v);
    if e.More? then (var t := HeightEntries(e.rest); if h < t then t else h) else h
  }

  /** How deep below `v` a left-to-right reader of the first `k` bytes has
      started on a value: an array element starts at its first byte, a member
      value right after its colon. */
  function Reach(v: Value, k: int): nat {
    match v
    case Container(obj, ws, entries) => ReachEntries(entries, k - 1 - |ws|)
    case _ => 0
  }

  function ReachEntries(e: Entries, k: int): nat
    decreases e, 2
  {
    if k < |RenderKey(e.key)| || k <= 0 then 0 else ReachBody(e, k - |RenderKey(e.key)|)
  }

  function ReachBody(e: Entries, k: int): nat
    decreases e, 1
  {
    var h := 1 + Reach(e.v, k - |e.lead|);
    var t := ReachAfter(e, k - |e.lead| - |Render(e.v)|);
    if h < t then t else h
  }

  function ReachAfter(e: Entries, k: int): nat
    decreases e, 0
  {
    if e.More? then ReachEntries(e.rest, k - |e.after| - 1 - |e.before|) else 0
  }

  /** As `Reach`, for the first `n` bytes of a text. */
  function ReachText(t: Text, n: nat): nat { Reach(t.v, n - |t.before|) }
}
