/** Soundness of the recogniser: whatever it accepts extends to a JSON text. */
module JsonSound {
  import opened Ascii
  import opened Utf8
  import opened JsonGrammar
  import opened JsonPrefix

  /** `x` is the syntax that the scan `r` from `pos` has read, completed when the
      data ended first. */
  predicate Covers(data: seq<byte>, pos: nat, r: Scan, x: seq<byte>)
    requires pos <= |data|
  {
    match r.status
    case Invalid => false
    case Complete => pos <= r.pos <= |data| && x == data[pos..r.pos]
    case Incomplete => data[pos..] <= x
  }

  lemma CoverStep(data: seq<byte>, pos: nat, p: nat, r: Scan, lead: seq<byte>, x: seq<byte>)
    requires pos <= p <= |data| && lead == data[pos..p]
    requires Covers(data, p, r, x)
    ensures Covers(data, pos, r, lead + x)
  {
    assert data[pos..] == lead + data[p..];
    if r.status.Complete? { assert data[pos..r.pos] == lead + data[p..r.pos]; }
  }

  lemma CoverByte(data: seq<byte>, pos: nat, r: Scan, b: byte, x: seq<byte>)
    requires pos < |data| && data[pos] == b && Covers(data, pos + 1, r, x)
    ensures Covers(data, pos, r, [b] + x)
  {
    assert data[pos..pos + 1] == [b];
    CoverStep(data, pos, pos + 1, r, [b], x);
  }

  lemma CoverToken(data: seq<byte>, pos: nat, r: Scan, b: byte)
    requires pos <= |data|
    requires if pos == |data| then r.status.Incomplete? else r == Scan(pos + 1, Complete) && data[pos] == b
    ensures Covers(data, pos, r, [b])
  {
  }

  lemma Assoc(a: seq<byte>, b: seq<byte>, c: seq<byte>)
    ensures (a + b) + c == a + (b + c)
  {
  }

  /** Reading `x` and, once that is complete, `y`. */
  lemma CoverThen(data: seq<byte>, pos: nat, s: Scan, r: Scan, x: seq<byte>, y: seq<byte>)
    requires pos <= |data| && Covers(data, pos, s, x)
    requires if s.status.Complete? then Covers(data, s.pos, r, y) else r.status.Incomplete?
    ensures Covers(data, pos, r, x + y)
  {
    if s.status.Complete? { CoverStep(data, pos, s.pos, r, x, y); }
  }

  lemma {:induction false} WsSpan(data: seq<byte>, pos: nat)
    requires pos <= |data|
    ensures AllWs(data[pos..SkipWs(data, pos)])
    decreases |data| - pos
  {
    if pos < |data| && IsWs(data[pos]) {
      WsSpan(data, pos + 1);
      assert data[pos..SkipWs(data, pos)] == [data[pos]] + data[pos + 1..SkipWs(data, pos)];
    }
  }

  lemma {:induction false} DigitSpan(data: seq<byte>, pos: nat)
    requires pos <= |data|
    ensures AllDigits(data[pos..DigitsEnd(data, pos)])
    decreases |data| - pos
  {
    if pos < |data| && IsDigit(data[pos]) {
      DigitSpan(data, pos + 1);
      assert data[pos..DigitsEnd(data, pos)] == [data[pos]] + data[pos + 1..DigitsEnd(data, pos)];
    }
  }

  lemma {:induction false} HexSound(data: seq<byte>, pos: nat, offset: nat) returns (c: seq<byte>)
    requires 0 < pos < |data| && data[pos - 1] == BACKSLASH && data[pos] == 0x75
    requires 1 <= offset <= 5 && pos + offset <= |data|
    requires forall i | pos < i < pos + offset :: IsHex(data[i])
    requires !HexAt(data, pos, offset).status.Invalid?
    ensures IsChar(c) && Covers(data, pos - 1, HexAt(data, pos, offset), c)
    decreases 5 - offset
  {
    if offset == 5 {
      c := data[pos - 1..pos + 5];
    } else if pos + offset >= |data| {
      c := data[pos - 1..] + [ZERO, ZERO, ZERO, ZERO][..5 - offset];
    } else {
      c := HexSound(data, pos, offset + 1);
    }
  }

  lemma {:induction false} CharsSound(data: seq<byte>, pos: nat) returns (cs: seq<seq<byte>>)
    requires pos <= |data| && !CharsAt(data, pos).status.Invalid?
    ensures AllChars(cs) && Covers(data, pos, CharsAt(data, pos), Join(cs) + [QUOTE])
    decreases |data| - pos
  {
    if pos == |data| || data[pos] == QUOTE {
      cs := [];
    } else if data[pos] == BACKSLASH {
      if pos + 1 == |data| {
        cs := CharsEnd(data, pos, [BACKSLASH, QUOTE]);
      } else if data[pos + 1] == 0x75 {
        var c := HexSound(data, pos + 1, 1);
        var h := HexAt(data, pos + 1, 1);
        if h.status.Complete? {
          cs := CharsStep(data, pos, h.pos, c);
        } else {
          cs := CharsEnd(data, pos, c);
        }
      } else {
        cs := CharsStep(data, pos, pos + 2, data[pos..pos + 2]);
      }
    } else if data[pos] < 0x80 {
      cs := CharsStep(data, pos, pos + 1, data[pos..pos + 1]);
    } else {
      var size := RuneSize(data[pos..]);
      if size > 0 {
        assert data[pos..][..size] == data[pos..pos + size];
        cs := CharsStep(data, pos, pos + size, data[pos..pos + size]);
      } else {
        var t := CutRune(data[pos..]);
        cs := CharsEnd(data, pos, data[pos..] + t);
      }
    }
  }

  lemma {:induction false} CharsStep(data: seq<byte>, pos: nat, p: nat, c: seq<byte>) returns (cs: seq<seq<byte>>)
    requires pos < p <= |data| && c == data[pos..p] && IsChar(c)
    requires CharsAt(data, pos) == CharsAt(data, p) && !CharsAt(data, p).status.Invalid?
    ensures AllChars(cs) && Covers(data, pos, CharsAt(data, pos), Join(cs) + [QUOTE])
    decreases |data| - pos, 0
  {
    var rest := CharsSound(data, p);
    cs := [c] + rest;
    assert Join(cs) + [QUOTE] == c + (Join(rest) + [QUOTE]);
    CoverStep(data, pos, p, CharsAt(data, p), c, Join(rest) + [QUOTE]);
  }

  lemma CharsEnd(data: seq<byte>, pos: nat, c: seq<byte>) returns (cs: seq<seq<byte>>)
    requires pos <= |data| && IsChar(c) && data[pos..] <= c
    requires CharsAt(data, pos).status.Incomplete?
    ensures AllChars(cs) && Covers(data, pos, CharsAt(data, pos), Join(cs) + [QUOTE])
  {
    cs := [c];
    assert Join(cs) == c + Join([]);
  }

  lemma {:induction false} LiteralSound(data: seq<byte>, pos: nat, text: seq<byte>, offset: nat)
    requires offset <= |text| && pos + offset <= |data| && text != []
    requires forall i | 0 <= i < offset :: text[i] == data[pos + i]
    requires !LiteralAt(data, pos, text, offset).status.Invalid?
    ensures Covers(data, pos, LiteralAt(data, pos, text, offset), text)
    decreases |text| - offset
  {
    if offset == |text| {
      assert text == data[pos..pos + offset];
    } else if pos + offset == |data| {
      assert data[pos..] == text[..offset];
    } else {
      LiteralSound(data, pos, text, offset + 1);
    }
  }

  lemma ExpSound(data: seq<byte>, pos: nat) returns (exp: seq<byte>)
    requires pos <= |data| && !ExpAt(data, pos).status.Invalid?
    ensures IsExp(exp) && Covers(data, pos, ExpAt(data, pos), exp)
  {
    var r := ExpAt(data, pos);
    if r.status.Incomplete? {
      exp := data[pos..] + [ZERO];
    } else {
      exp := data[pos..r.pos];
      if exp != [] {
        var p := if IsSign(data[pos + 1]) then pos + 2 else pos + 1;
        DigitSpan(data, p);
        assert exp[p - pos..] == data[p..r.pos];
      }
    }
  }

  lemma FracSound(data: seq<byte>, pos: nat) returns (frac: seq<byte>, exp: seq<byte>)
    requires pos <= |data| && !FracAt(data, pos).status.Invalid?
    ensures IsFrac(frac) && IsExp(exp) && Covers(data, pos, FracAt(data, pos), frac + exp)
  {
    if pos < |data| && data[pos] == DOT {
      if pos + 1 == |data| {
        frac, exp := [DOT, ZERO], [];
      } else {
        var p := DigitsEnd(data, pos + 1);
        DigitSpan(data, pos + 1);
        frac := data[pos..p];
        assert frac[1..] == data[pos + 1..p];
        exp := ExpSound(data, p);
        CoverStep(data, pos, p, ExpAt(data, p), frac, exp);
      }
    } else {
      frac := [];
      exp := ExpSound(data, pos);
      assert frac + exp == exp;
    }
  }

  lemma WholeSound(data: seq<byte>, pos: nat) returns (whole: seq<byte>, frac: seq<byte>, exp: seq<byte>)
    requires pos < |data| && data[pos] != MINUS && !NumberAt(data, pos).status.Invalid?
    ensures IsWhole(whole) && IsFrac(frac) && IsExp(exp)
    ensures Covers(data, pos, NumberAt(data, pos), whole + (frac + exp))
  {
    var q := if data[pos] == ZERO then pos + 1 else DigitsEnd(data, pos);
    DigitSpan(data, pos);
    whole := data[pos..q];
    frac, exp := FracSound(data, q);
    CoverStep(data, pos, q, FracAt(data, q), whole, frac + exp);
  }

  lemma NumberSound(data: seq<byte>, pos: nat) returns (v: Value)
    requires pos < |data| && !NumberAt(data, pos).status.Invalid?
    ensures v.Number? && Wf(v) && Covers(data, pos, NumberAt(data, pos), Render(v))
  {
    if data[pos] != MINUS {
      var whole, frac, exp := WholeSound(data, pos);
      v := Number(false, whole, frac, exp);
      assert Render(v) == whole + (frac + exp);
    } else if pos + 1 == |data| {
      v := Number(true, [ZERO], [], []);
    } else {
      assert data[pos + 1] != MINUS;
      var whole, frac, exp := WholeSound(data, pos + 1);
      v := Number(true, whole, frac, exp);
      CoverByte(data, pos, NumberAt(data, pos), MINUS, whole + (frac + exp));
    }
  }

  lemma {:induction false} ValueSound(data: seq<byte>, pos: nat, depth: nat) returns (lead: seq<byte>, v: Value)
    requires pos <= |data| && !ValueAt(data, pos, depth).status.Invalid?
    ensures AllWs(lead) && lead == data[pos..SkipWs(data, pos)]
    ensures Wf(v) && Covers(data, pos, ValueAt(data, pos, depth), lead + Render(v))
    decreases |data| - pos, 2
  {
    var p := SkipWs(data, pos);
    lead := data[pos..p];
    WsSpan(data, pos);
    if p == |data| {
      v := Literal(NULL);
      return;
    }
    if data[p] == Open(true) || data[p] == Open(false) {
      v := ContainerSound(data, p, depth + 1, data[p] == Open(true));
    } else if data[p] == QUOTE {
      var cs := CharsSound(data, p + 1);
      v := String(cs);
      CoverByte(data, p, CharsAt(data, p + 1), QUOTE, Join(cs) + [QUOTE]);
    } else if data[p] == MINUS || IsDigit(data[p]) {
      v := NumberSound(data, p);
    } else {
      var text := if data[p] == TRUE[0] then TRUE else if data[p] == FALSE[0] then FALSE else NULL;
      LiteralSound(data, p, text, 0);
      v := Literal(text);
    }
    CoverStep(data, pos, p, ValueAt(data, pos, depth), lead, Render(v));
  }

  lemma {:induction false} ContainerSound(data: seq<byte>, pos: nat, depth: nat, obj: bool) returns (v: Value)
    requires pos < |data| && data[pos] == Open(obj) && !ContainerAt(data, pos, depth, obj).status.Invalid?
    ensures Wf(v) && Covers(data, pos, ContainerAt(data, pos, depth, obj), Render(v))
    decreases |data| - pos, 1
  {
    var p := SkipWs(data, pos + 1);
    var r := ContainerAt(data, pos, depth, obj);
    var ws := data[pos + 1..p];
    WsSpan(data, pos + 1);
    var x;
    if p == |data| || data[p] == Close(obj) {
      v := Empty(obj, ws);
      x := [Close(obj)];
      CoverToken(data, p, r, Close(obj));
    } else {
      WsStops(data, pos + 1);
      var e := EntriesSound(data, p, depth, obj);
      v := Container(obj, ws, e);
      x := RenderEntries(e, obj);
    }
    CoverStep(data, pos + 1, p, r, ws, x);
    CoverByte(data, pos, r, Open(obj), ws + x);
  }

  lemma KeySound(data: seq<byte>, pos: nat) returns (k: Key)
    requires pos < |data| && !KeyAt(data, pos).status.Invalid?
    ensures WfKey(k, true) && Covers(data, pos, KeyAt(data, pos), RenderKey(k))
  {
    var s := CharsAt(data, pos + 1);
    var r := KeyAt(data, pos);
    var cs := CharsSound(data, pos + 1);
    CoverByte(data, pos, s, QUOTE, Join(cs) + [QUOTE]);
    if s.status.Incomplete? {
      k := Key(cs, []);
      CoverThen(data, pos, s, r, RenderString(cs), k.beforeColon + [COLON]);
    } else {
      var p := SkipWs(data, s.pos);
      WsSpan(data, s.pos);
      k := Key(cs, data[s.pos..p]);
      CoverToken(data, p, r, COLON);
      CoverStep(data, s.pos, p, r, k.beforeColon, [COLON]);
      CoverStep(data, pos, s.pos, r, RenderString(cs), k.beforeColon + [COLON]);
    }
  }

  lemma {:induction false} EntriesSound(data: seq<byte>, pos: nat, depth: nat, obj: bool) returns (e: Entries)
    requires pos < |data| && !EntriesAt(data, pos, depth, obj).status.Invalid? && !IsWs(data[pos])
    ensures WfEntries(e, obj) && Covers(data, pos, EntriesAt(data, pos, depth, obj), RenderEntries(e, obj))
    decreases |data| - pos, 4
  {
    var slot := SlotAt(data, pos, obj);
    var r := EntriesAt(data, pos, depth, obj);
    var key := NoKey;
    if obj { key := KeySound(data, pos); }
    if slot.status.Incomplete? {
      e := Last(key, [], Literal(NULL), []);
    } else {
      e := BodySound(data, slot.pos, depth, obj, key);
    }
    CoverThen(data, pos, slot, r, RenderKey(key), e.lead + (Render(e.v) + RenderAfter(e, obj)));
  }

  lemma {:induction false} BodySound(data: seq<byte>, pos: nat, depth: nat, obj: bool, key: Key) returns (e: Entries)
    requires pos <= |data| && !BodyAt(data, pos, depth, obj).status.Invalid?
    requires WfKey(key, obj) && (!obj ==> pos < |data| && !IsWs(data[pos]))
    ensures WfEntries(e, obj) && e.key == key
    ensures Covers(data, pos, BodyAt(data, pos, depth, obj), e.lead + (Render(e.v) + RenderAfter(e, obj)))
    decreases |data| - pos, 3
  {
    var s := ValueAt(data, pos, depth);
    var lead, v := ValueSound(data, pos, depth);
    if s.status.Incomplete? {
      e := Last(key, lead, v, []);
    } else {
      e := AfterSound(data, s.pos, depth, obj, key, lead, v);
    }
    CoverThen(data, pos, s, BodyAt(data, pos, depth, obj), lead + Render(v), RenderAfter(e, obj));
    Assoc(lead, Render(v), RenderAfter(e, obj));
  }

  lemma {:induction false} AfterSound(data: seq<byte>, pos: nat, depth: nat, obj: bool,
                                      key: Key, lead: seq<byte>, v: Value) returns (e: Entries)
    requires pos <= |data| && !AfterAt(data, pos, depth, obj).status.Invalid?
    requires WfKey(key, obj) && AllWs(lead) && (!obj ==> lead == []) && Wf(v)
    ensures WfEntries(e, obj) && e.key == key && e.lead == lead && e.v == v
    ensures Covers(data, pos, AfterAt(data, pos, depth, obj), RenderAfter(e, obj))
    decreases |data| - pos, 5
  {
    var p := SkipWs(data, pos);
    var r := AfterAt(data, pos, depth, obj);
    var after := data[pos..p];
    WsSpan(data, pos);
    var x;
    if p == |data| || data[p] == Close(obj) {
      e := Last(key, lead, v, after);
      x := [Close(obj)];
      CoverToken(data, p, r, Close(obj));
    } else {
      var before, rest := CommaSound(data, p, depth, obj, r);
      e := More(key, lead, v, after, before, rest);
      x := [COMMA] + (before + RenderEntries(rest, obj));
    }
    CoverStep(data, pos, p, r, after, x);
  }

  lemma {:induction false} NextSound(data: seq<byte>, n: nat, depth: nat, obj: bool, r: Scan) returns (e: Entries)
    requires n <= |data| && !r.status.Invalid?
    requires if n == |data| then r.status.Incomplete? else !IsWs(data[n]) && r == EntriesAt(data, n, depth, obj)
    ensures WfEntries(e, obj) && Covers(data, n, r, RenderEntries(e, obj))
    decreases |data| - n, 5
  {
    if n == |data| {
      e := Last(if obj then Key([], []) else NoKey, [], Literal(NULL), []);
    } else {
      e := EntriesSound(data, n, depth, obj);
    }
  }

  lemma {:induction false} CommaSound(data: seq<byte>, p: nat, depth: nat, obj: bool, r: Scan)
      returns (before: seq<byte>, rest: Entries)
    requires p < |data| && data[p] == COMMA && r == AfterAt(data, p, depth, obj) && !r.status.Invalid?
    ensures AllWs(before) && WfEntries(rest, obj)
    ensures Covers(data, p, r, [COMMA] + (before + RenderEntries(rest, obj)))
    decreases |data| - p, 0
  {
    var n := SkipWs(data, p + 1);
    before := data[p + 1..n];
    WsSpan(data, p + 1);
    WsStops(data, p + 1);
    rest := NextSound(data, n, depth, obj, r);
    var x := RenderEntries(rest, obj);
    CoverStep(data, p + 1, n, r, before, x);
    CoverByte(data, p, r, COMMA, before + x);
  }

  lemma {:induction false} WsStops(data: seq<byte>, pos: nat)
    requires pos <= |data|
    ensures SkipWs(data, pos) < |data| ==> !IsWs(data[SkipWs(data, pos)])
    decreases |data| - pos
  {
    if pos < |data| && IsWs(data[pos]) { WsStops(data, pos + 1); }
  }

  /** Every accepted byte string is the beginning of some JSON text. */
  lemma AcceptedExtends(data: seq<byte>) returns (t: Text)
    requires Accepts(data)
    ensures WfText(t) && Begins(data, RenderText(t))
  {
    var p := SkipWs(data, 0);
    WsSpan(data, 0);
    WsStops(data, 0);
    var lead, v := ValueSound(data, p, 0);
    assert lead == [] && lead + Render(v) == Render(v);
    var after := AfterValue(data, p, ValueAt(data, p, 0), Render(v));
    t := Text(data[0..p], v, after);
    PrefixOfWhole(data, p, Render(v) + after);
  }

  /** A value that is cut short, or is followed by whitespace only. */
  lemma AfterValue(data: seq<byte>, p: nat, r: Scan, x: seq<byte>) returns (after: seq<byte>)
    requires p <= |data| && Covers(data, p, r, x) && (r.status.Complete? ==> SkipWs(data, r.pos) == |data|)
    ensures AllWs(after) && data[p..] <= x + after
  {
    if r.status.Complete? {
      after := data[r.pos..];
      WsSpan(data, r.pos);
      assert data[p..] == x + after;
    } else {
      after := [];
      assert x + after == x;
    }
  }

  lemma PrefixOfWhole(data: seq<byte>, p: nat, x: seq<byte>)
    requires p <= |data| && data[p..] <= x
    ensures Begins(data, data[0..p] + x)
  {
    assert data == data[0..p] + data[p..];
    BeginsIsPrefix(data, data[0..p] + x);
  }
}
