/** The recogniser of structured-response prefixes: does a byte string still
    extend to one JSON value? Each scanner's result as a position and a status. */
module JsonPrefix {
  import opened Ascii
  import opened Utf8
  import opened JsonGrammar

  const MAX_DEPTH := 10_000

  datatype Status = Invalid | Incomplete | Complete
  datatype Scan = Scan(pos: nat, status: Status)

  function SkipWs(data: seq<byte>, pos: nat): (p: nat)
    requires pos <= |data|
    ensures pos <= p <= |data|
    decreases |data| - pos
  {
    if pos < |data| && IsWs(data[pos]) then SkipWs(data, pos + 1) else pos
  }

  function DigitsEnd(data: seq<byte>, pos: nat): (p: nat)
    requires pos <= |data|
    ensures pos <= p <= |data|
    decreases |data| - pos
  {
    if pos < |data| && IsDigit(data[pos]) then DigitsEnd(data, pos + 1) else pos
  }

  predicate Moves(data: seq<byte>, pos: nat, r: Scan) {
    pos <= r.pos <= |data| && (r.status.Complete? ==> pos < r.pos)
  }

  /** The four digits of a \u escape whose `u` is at `pos`, from `offset` on. */
  function HexAt(data: seq<byte>, pos: nat, offset: nat): (r: Scan)
    requires pos < |data| && 1 <= offset <= 5 && pos + offset <= |data|
    ensures Moves(data, pos, r)
    decreases 5 - offset
  {
    if offset == 5 then Scan(pos + 5, Complete)
    else if pos + offset >= |data| then Scan(|data|, Incomplete)
    else if !IsHex(data[pos + offset]) then Scan(pos + offset, Invalid)
    else HexAt(data, pos, offset + 1)
  }

  /** The rest of a string, up to and including the closing quote. */
  function CharsAt(data: seq<byte>, pos: nat): (r: Scan)
    requires pos <= |data|
    ensures Moves(data, pos, r)
    decreases |data| - pos
  {
    if pos == |data| then Scan(pos, Incomplete)
    else if data[pos] == QUOTE then Scan(pos + 1, Complete)
    else if data[pos] == BACKSLASH then
      if pos + 1 == |data| then Scan(pos + 1, Incomplete)
      else if data[pos + 1] == 0x75 then
        var h := HexAt(data, pos + 1, 1);
        if h.status.Complete? then CharsAt(data, h.pos) else h
      else if !IsSimpleEscape(data[pos + 1]) then Scan(pos + 1, Invalid)
      else CharsAt(data, pos + 2)
    else if data[pos] < 0x20 then Scan(pos, Invalid)
    else if data[pos] < 0x80 then CharsAt(data, pos + 1)
    else
      var size := RuneSize(data[pos..]);
      if size > 0 then CharsAt(data, pos + size)
      else if !FullRune(data[pos..]) then Scan(|data|, Incomplete)
      else Scan(pos, Invalid)
  }

  function LiteralAt(data: seq<byte>, pos: nat, text: seq<byte>, offset: nat): (r: Scan)
    requires offset <= |text| && pos + offset <= |data| && text != []
    ensures Moves(data, pos, r)
    decreases |text| - offset
  {
    if offset == |text| then Scan(pos + offset, Complete)
    else if pos + offset == |data| then Scan(|data|, Incomplete)
    else if data[pos + offset] != text[offset] then Scan(pos + offset, Invalid)
    else LiteralAt(data, pos, text, offset + 1)
  }

  function ExpAt(data: seq<byte>, pos: nat): (r: Scan)
    requires pos <= |data|
    ensures pos <= r.pos <= |data|
  {
    if pos < |data| && IsExpMark(data[pos]) then
      if pos + 1 == |data| then Scan(pos + 1, Incomplete)
      else
        var p := if IsSign(data[pos + 1]) then pos + 2 else pos + 1;
        if p == |data| then Scan(p, Incomplete)
        else if !IsDigit(data[p]) then Scan(p, Invalid)
        else Scan(DigitsEnd(data, p), Complete)
    else Scan(pos, Complete)
  }

  function FracAt(data: seq<byte>, pos: nat): (r: Scan)
    requires pos <= |data|
    ensures pos <= r.pos <= |data|
  {
    if pos < |data| && data[pos] == DOT then
      if pos + 1 == |data| then Scan(pos + 1, Incomplete)
      else if !IsDigit(data[pos + 1]) then Scan(pos + 1, Invalid)
      else ExpAt(data, DigitsEnd(data, pos + 1))
    else ExpAt(data, pos)
  }

  function NumberAt(data: seq<byte>, pos: nat): (r: Scan)
    requires pos < |data|
    ensures Moves(data, pos, r)
  {
    var p := if data[pos] == MINUS then pos + 1 else pos;
    if p == |data| then Scan(p, Incomplete)
    else if data[p] == ZERO then FracAt(data, p + 1)
    else if !IsDigit(data[p]) then Scan(p, Invalid)
    else FracAt(data, DigitsEnd(data, p))
  }

  function ValueAt(data: seq<byte>, pos: nat, depth: nat): (r: Scan)
    requires pos <= |data|
    ensures Moves(data, pos, r)
    decreases |data| - pos, 2
  {
    if depth > MAX_DEPTH then Scan(pos, Invalid)
    else
      var p := SkipWs(data, pos);
      if p == |data| then Scan(p, Incomplete)
      else if data[p] == Open(true) then ContainerAt(data, p, depth + 1, true)
      else if data[p] == Open(false) then ContainerAt(data, p, depth + 1, false)
      else if data[p] == QUOTE then CharsAt(data, p + 1)
      else if data[p] == TRUE[0] then LiteralAt(data, p, TRUE, 0)
      else if data[p] == FALSE[0] then LiteralAt(data, p, FALSE, 0)
      else if data[p] == NULL[0] then LiteralAt(data, p, NULL, 0)
      else if data[p] == MINUS || IsDigit(data[p]) then NumberAt(data, p)
      else Scan(p, Invalid)
  }

  /** An object or array whose opening bracket is at `pos`. */
  function ContainerAt(data: seq<byte>, pos: nat, depth: nat, obj: bool): (r: Scan)
    requires pos < |data|
    ensures Moves(data, pos, r)
    decreases |data| - pos, 1
  {
    var p := SkipWs(data, pos + 1);
    if p == |data| then Scan(p, Incomplete)
    else if data[p] == Close(obj) then Scan(p + 1, Complete)
    else EntriesAt(data, p, depth, obj)
  }

  /** A member name and its colon. */
  function KeyAt(data: seq<byte>, pos: nat): (r: Scan)
    requires pos < |data|
    ensures Moves(data, pos, r)
  {
    if data[pos] != QUOTE then Scan(pos, Invalid)
    else
      var s := CharsAt(data, pos + 1);
      if !s.status.Complete? then s
      else
        var p := SkipWs(data, s.pos);
        if p == |data| then Scan(p, Incomplete)
        else if data[p] != COLON then Scan(p, Invalid)
        else Scan(p + 1, Complete)
  }

  function SlotAt(data: seq<byte>, pos: nat, obj: bool): (r: Scan)
    requires pos < |data|
    ensures pos <= r.pos <= |data|
  {
    if obj then KeyAt(data, pos) else Scan(pos, Complete)
  }

  /** The entries of a container and its closing bracket. */
  function EntriesAt(data: seq<byte>, pos: nat, depth: nat, obj: bool): (r: Scan)
    requires pos < |data|
    ensures Moves(data, pos, r)
    decreases |data| - pos, 4
  {
    var slot := SlotAt(data, pos, obj);
    if !slot.status.Complete? then slot else BodyAt(data, slot.pos, depth, obj)
  }

  /** An entry's value and all that follows it. */
  function BodyAt(data: seq<byte>, pos: nat, depth: nat, obj: bool): (r: Scan)
    requires pos <= |data|
    ensures Moves(data, pos, r)
    decreases |data| - pos, 3
  {
    var v := ValueAt(data, pos, depth);
    if !v.status.Complete? then v else AfterAt(data, v.pos, depth, obj)
  }

  /** What follows an entry: the closing bracket, or a comma and more entries. */
  function AfterAt(data: seq<byte>, pos: nat, depth: nat, obj: bool): (r: Scan)
    requires pos <= |data|
    ensures Moves(data, pos, r)
    decreases |data| - pos, 5
  {
    var p := SkipWs(data, pos);
    if p == |data| then Scan(p, Incomplete)
    else if data[p] == Close(obj) then Scan(p + 1, Complete)
    else if data[p] == COMMA then
      var n := SkipWs(data, p + 1);
      if n == |data| then Scan(n, Incomplete)
      else if data[n] == Close(obj) then Scan(n, Invalid)
      else EntriesAt(data, n, depth, obj)
    else Scan(p, Invalid)
  }

  predicate AcceptsFrom(data: seq<byte>, pos: nat)
    requires pos <= |data|
  {
    var r := ValueAt(data, pos, 0);
    r.status.Incomplete? || (r.status.Complete? && SkipWs(data, r.pos) == |data|)
  }

  /** `ValidateJSONPrefix` returns no error. */
  predicate Accepts(data: seq<byte>) {
    var p := SkipWs(data, 0);
    p == |data| || AcceptsFrom(data, p)
  }
}
