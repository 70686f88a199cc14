/** The scanning loops of the recogniser, each proved to compute the position
    and status that `JsonPrefix` gives it. */
module JsonScanner {
  import opened Ascii
  import opened Utf8
  import opened JsonGrammar
  import opened JsonPrefix

  method SkipWhitespace(data: seq<byte>, pos: nat) returns (p: nat)
    requires pos <= |data|
    ensures p == SkipWs(data, pos)
  {
    p := pos;
    while p < |data|
      invariant pos <= p <= |data| && SkipWs(data, pos) == SkipWs(data, p)
    {
      if !IsWs(data[p]) { return; }
      p := p + 1;
    }
  }

  method SkipDigits(data: seq<byte>, pos: nat) returns (p: nat)
    requires pos <= |data|
    ensures p == DigitsEnd(data, pos)
  {
    p := pos;
    while p < |data| && IsDigit(data[p])
      invariant pos <= p <= |data| && DigitsEnd(data, pos) == DigitsEnd(data, p)
    {
      p := p + 1;
    }
  }

  /** The four digits of an escape whose `u` is at `p`. */
  method ParseHex(data: seq<byte>, p: nat) returns (r: Scan)
    requires p < |data|
    ensures r == HexAt(data, p, 1)
  {
    var offset := 1;
    while offset <= 4
      invariant 1 <= offset <= 5 && p + offset <= |data| && HexAt(data, p, 1) == HexAt(data, p, offset)
    {
      if p + offset >= |data| { return Scan(|data|, Incomplete); }
      if !IsHex(data[p + offset]) { return Scan(p + offset, Invalid); }
      offset := offset + 1;
    }
    return Scan(p + 5, Complete);
  }

  method ParseString(data: seq<byte>, pos: nat) returns (r: Scan)
    requires pos < |data|
    ensures r == CharsAt(data, pos + 1)
  {
    var p := pos + 1;
    while p < |data|
      invariant pos < p <= |data| && CharsAt(data, pos + 1) == CharsAt(data, p)
    {
      if data[p] == QUOTE {
        return Scan(p + 1, Complete);
      } else if data[p] == BACKSLASH {
        p := p + 1;
        if p == |data| { return Scan(p, Incomplete); }
        if data[p] == 0x75 {
          var hex := ParseHex(data, p);
          if !hex.status.Complete? { return hex; }
          p := hex.pos;
          continue;
        }
        if !IsSimpleEscape(data[p]) { return Scan(p, Invalid); }
        p := p + 1;
      } else if data[p] < 0x20 {
        return Scan(p, Invalid);
      } else if data[p] < 0x80 {
        p := p + 1;
      } else {
        var size := RuneSize(data[p..]);
        if size == 0 {
          if !FullRune(data[p..]) { return Scan(|data|, Incomplete); }
          return Scan(p, Invalid);
        }
        p := p + size;
      }
    }
    return Scan(p, Incomplete);
  }

  method ParseLiteral(data: seq<byte>, pos: nat, text: seq<byte>) returns (r: Scan)
    requires pos <= |data| && text != []
    ensures r == LiteralAt(data, pos, text, 0)
  {
    var offset := 0;
    while offset < |text|
      invariant offset <= |text| && pos + offset <= |data|
      invariant LiteralAt(data, pos, text, 0) == LiteralAt(data, pos, text, offset)
    {
      if pos + offset == |data| { return Scan(|data|, Incomplete); }
      if data[pos + offset] != text[offset] { return Scan(pos + offset, Invalid); }
      offset := offset + 1;
    }
    return Scan(pos + |text|, Complete);
  }

  method ParseExponent(data: seq<byte>, pos: nat) returns (r: Scan)
    requires pos <= |data|
    ensures r == ExpAt(data, pos)
  {
    var p := pos;
    if p < |data| && IsExpMark(data[p]) {
      p := p + 1;
      if p == |data| { return Scan(p, Incomplete); }
      if IsSign(data[p]) {
        p := p + 1;
        if p == |data| { return Scan(p, Incomplete); }
      }
      if !IsDigit(data[p]) { return Scan(p, Invalid); }
      p := SkipDigits(data, p);
    }
    return Scan(p, Complete);
  }

  method ParseFraction(data: seq<byte>, pos: nat) returns (r: Scan)
    requires pos <= |data|
    ensures r == FracAt(data, pos)
  {
    var p := pos;
    if p < |data| && data[p] == DOT {
      p := p + 1;
      if p == |data| { return Scan(p, Incomplete); }
      if !IsDigit(data[p]) { return Scan(p, Invalid); }
      p := SkipDigits(data, p);
    }
    r := ParseExponent(data, p);
  }

  method ParseNumber(data: seq<byte>, pos: nat) returns (r: Scan)
    requires pos < |data|
    ensures r == NumberAt(data, pos)
  {
    var p := pos;
    if data[p] == MINUS {
      p := p + 1;
      if p == |data| { return Scan(p, Incomplete); }
    }
    if data[p] == ZERO {
      p := p + 1;
    } else {
      if !IsDigit(data[p]) { return Scan(p, Invalid); }
      p := SkipDigits(data, p);
    }
    r := ParseFraction(data, p);
  }

  method ParseValue(data: seq<byte>, pos: nat, depth: nat) returns (r: Scan)
    requires pos <= |data|
    ensures r == ValueAt(data, pos, depth)
    decreases |data| - pos, 2
  {
    if depth > MAX_DEPTH { return Scan(pos, Invalid); }
    var p := SkipWhitespace(data, pos);
    if p == |data| { return Scan(p, Incomplete); }
    if data[p] == Open(true) {
      r := ParseObject(data, p, depth + 1);
    } else if data[p] == Open(false) {
      r := ParseArray(data, p, depth + 1);
    } else if data[p] == QUOTE {
      r := ParseString(data, p);
    } else if data[p] == TRUE[0] {
      r := ParseLiteral(data, p, TRUE);
    } else if data[p] == FALSE[0] {
      r := ParseLiteral(data, p, FALSE);
    } else if data[p] == NULL[0] {
      r := ParseLiteral(data, p, NULL);
    } else if data[p] == MINUS || IsDigit(data[p]) {
      r := ParseNumber(data, p);
    } else {
      r := Scan(p, Invalid);
    }
  }

  method ParseObject(data: seq<byte>, pos: nat, depth: nat) returns (r: Scan)
    requires pos < |data|
    ensures r == ContainerAt(data, pos, depth, true)
    decreases |data| - pos, 1
  {
    var p := SkipWhitespace(data, pos + 1);
    if p == |data| { return Scan(p, Incomplete); }
    if data[p] == Close(true) { return Scan(p + 1, Complete); }
    while true
      invariant pos < p < |data| && ContainerAt(data, pos, depth, true) == EntriesAt(data, p, depth, true)
      decreases |data| - p
    {
      var key := ParseKey(data, p);
      if !key.status.Complete? { return key; }
      var v := ParseValue(data, key.pos, depth);
      if !v.status.Complete? { return v; }
      var done, next;
      done, r, next := ParseSeparator(data, v.pos, depth, true);
      if done { return; }
      p := next;
    }
  }

  /** A member's name and its colon. */
  method ParseKey(data: seq<byte>, p: nat) returns (r: Scan)
    requires p < |data|
    ensures r == KeyAt(data, p)
    ensures r.status.Complete? ==> p < r.pos <= |data|
  {
    if data[p] != QUOTE { return Scan(p, Invalid); }
    var s := ParseString(data, p);
    if !s.status.Complete? { return s; }
    var q := SkipWhitespace(data, s.pos);
    if q == |data| { return Scan(q, Incomplete); }
    if data[q] != COLON { return Scan(q, Invalid); }
    return Scan(q + 1, Complete);
  }

  /** What follows an entry: the container is done with, or the next entry starts. */
  method ParseSeparator(data: seq<byte>, pos: nat, depth: nat, obj: bool) returns (done: bool, r: Scan, next: nat)
    requires pos <= |data|
    ensures done ==> r == AfterAt(data, pos, depth, obj)
    ensures !done ==> pos < next < |data| && AfterAt(data, pos, depth, obj) == EntriesAt(data, next, depth, obj)
  {
    done, next := true, pos;
    var q := SkipWhitespace(data, pos);
    if q == |data| { return done, Scan(q, Incomplete), next; }
    if data[q] == Close(obj) { return done, Scan(q + 1, Complete), next; }
    if data[q] != COMMA { return done, Scan(q, Invalid), next; }
    var p := SkipWhitespace(data, q + 1);
    if p == |data| { return done, Scan(p, Incomplete), next; }
    if data[p] == Close(obj) { return done, Scan(p, Invalid), next; }
    return false, Scan(p, Incomplete), p;
  }

  method ParseArray(data: seq<byte>, pos: nat, depth: nat) returns (r: Scan)
    requires pos < |data|
    ensures r == ContainerAt(data, pos, depth, false)
    decreases |data| - pos, 1
  {
    var p := SkipWhitespace(data, pos + 1);
    if p == |data| { return Scan(p, Incomplete); }
    if data[p] == Close(false) { return Scan(p + 1, Complete); }
    while true
      invariant pos < p < |data| && ContainerAt(data, pos, depth, false) == EntriesAt(data, p, depth, false)
      decreases |data| - p
    {
      var v := ParseValue(data, p, depth);
      if !v.status.Complete? { return v; }
      var done, next;
      done, r, next := ParseSeparator(data, v.pos, depth, false);
      if done { return; }
      p := next;
    }
  }

  /** `ValidateJSONPrefix`: `ok` means a nil error; otherwise `at` is the byte
      the error names. */
  method ValidateJSONPrefix(data: seq<byte>) returns (ok: bool, at: nat)
    ensures ok == Accepts(data)
    ensures at <= |data|
  {
    at := SkipWhitespace(data, 0);
    if at == |data| { return true, at; }
    var r := ParseValue(data, at, 0);
    at := r.pos;
    if r.status.Incomplete? { return true, at; }
    if r.status.Complete? {
      var q := SkipWhitespace(data, at);
      return q == |data|, at;
    }
    ok := false;
  }
}
