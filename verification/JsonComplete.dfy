/** Completeness of the recogniser, with the exact effect of its nesting limit. */
module JsonComplete {
  import opened Ascii
  import opened Utf8
  import opened JsonGrammar
  import opened JsonPrefix
  import JsonSound

  /** From `pos` on, the data spells `x` as far as it goes. */
  predicate Agrees(data: seq<byte>, pos: nat, x: seq<byte>) {
    forall i | 0 <= i < |x| && pos + i < |data| :: data[pos + i] == x[i]
  }

  lemma AgreesConcat(data: seq<byte>, pos: nat, x: seq<byte>, y: seq<byte>)
    requires Agrees(data, pos, x + y)
    ensures Agrees(data, pos, x) && Agrees(data, pos + |x|, y)
  {
    forall i | 0 <= i < |x| && pos + i < |data| ensures data[pos + i] == x[i] {
      assert (x + y)[i] == x[i];
    }
    forall i | 0 <= i < |y| && pos + |x| + i < |data| ensures data[pos + |x| + i] == y[i] {
      assert (x + y)[|x| + i] == y[i];
    }
  }

  lemma AgreesThree(data: seq<byte>, pos: nat, x: seq<byte>, y: seq<byte>, z: seq<byte>)
    requires Agrees(data, pos, x + (y + z)) && z != []
    ensures Agrees(data, pos, x + y) && Agrees(data, pos + |x| + |y|, z)
    ensures pos + |x| + |y| < |data| ==> data[pos + |x| + |y|] == z[0]
  {
    assert x + (y + z) == (x + y) + z;
    AgreesConcat(data, pos, x + y, z);
    if pos + |x| + |y| < |data| { assert data[pos + |x| + |y| + 0] == z[0]; }
  }

  /** The scan of `n` bytes: finished if they are all there, else unfinished. */
  predicate Reads(data: seq<byte>, pos: nat, r: Scan, n: nat) {
    if pos + n <= |data| then r == Scan(pos + n, Complete) else r.status.Incomplete?
  }

  /** As `Reads`, but a number cut short may itself be a number. */
  predicate ReadsValue(data: seq<byte>, pos: nat, r: Scan, n: nat) {
    Reads(data, pos, r, n) || (pos + n > |data| && r == Scan(|data|, Complete))
  }

  predicate Delim(b: byte) {
    IsWs(b) || b == COMMA || b == Close(true) || b == Close(false)
  }

  predicate Delimited(data: seq<byte>, pos: nat) {
    pos < |data| ==> Delim(data[pos])
  }

  lemma {:induction false} WsRun(data: seq<byte>, pos: nat, w: seq<byte>)
    requires pos <= |data| && AllWs(w) && Agrees(data, pos, w)
    requires pos + |w| < |data| ==> !IsWs(data[pos + |w|])
    ensures SkipWs(data, pos) == if pos + |w| <= |data| then pos + |w| else |data|
    decreases |w|
  {
    if w != [] && pos < |data| {
      assert w == w[..1] + w[1..];
      AgreesConcat(data, pos, w[..1], w[1..]);
      assert data[pos + 0] == w[..1][0];
      WsRun(data, pos + 1, w[1..]);
    }
  }

  lemma {:induction false} DigitRun(data: seq<byte>, pos: nat, w: seq<byte>)
    requires pos <= |data| && AllDigits(w) && Agrees(data, pos, w)
    requires pos + |w| < |data| ==> !IsDigit(data[pos + |w|])
    ensures DigitsEnd(data, pos) == if pos + |w| <= |data| then pos + |w| else |data|
    decreases |w|
  {
    if w != [] && pos < |data| {
      assert w == w[..1] + w[1..];
      AgreesConcat(data, pos, w[..1], w[1..]);
      assert data[pos + 0] == w[..1][0];
      DigitRun(data, pos + 1, w[1..]);
    }
  }

  lemma {:induction false} HexAccepts(data: seq<byte>, pos: nat, offset: nat, c: seq<byte>)
    requires pos < |data| && 1 <= offset <= 5 && pos + offset <= |data|
    requires |c| == 5 && Agrees(data, pos, c) && forall i | 1 <= i < 5 :: IsHex(c[i])
    ensures Reads(data, pos, HexAt(data, pos, offset), 5)
    decreases 5 - offset
  {
    if offset < 5 && pos + offset < |data| {
      assert data[pos + offset] == c[offset];
      HexAccepts(data, pos, offset + 1, c);
    }
  }

  lemma RuneAccepts(data: seq<byte>, pos: nat, c: seq<byte>)
    requires pos < |data| && Agrees(data, pos, c) && IsRune(c)
    ensures if pos + |c| <= |data| then RuneSize(data[pos..]) == |c|
            else RuneSize(data[pos..]) == 0 && !FullRune(data[pos..])
  {
    var p := data[pos..];
    forall i | 0 <= i < |c| && i < |p| ensures p[i] == c[i] {
      assert data[pos + i] == c[i];
    }
    if |p| < |c| {
      assert p == c[..|p|];
      RuneCut(c, |p|);
    } else {
      assert p[..|c|] == c;
    }
  }

  /** One char of a string is stepped over, or the data ends inside it. */
  lemma CharAccepts(data: seq<byte>, pos: nat, c: seq<byte>)
    requires pos < |data| && Agrees(data, pos, c) && IsChar(c)
    ensures if pos + |c| <= |data| then CharsAt(data, pos) == CharsAt(data, pos + |c|)
            else CharsAt(data, pos).status.Incomplete?
  {
    assert data[pos + 0] == c[0];
    if c[0] == BACKSLASH {
      if pos + 1 < |data| {
        assert data[pos + 1] == c[1];
        if |c| == 6 {
          assert c == c[..1] + c[1..];
          AgreesConcat(data, pos, c[..1], c[1..]);
          HexAccepts(data, pos + 1, 1, c[1..]);
        }
      }
    } else {
      RuneAccepts(data, pos, c);
    }
  }

  lemma {:induction false} CharsAccepts(data: seq<byte>, pos: nat, cs: seq<seq<byte>>)
    requires pos <= |data| && AllChars(cs) && Agrees(data, pos, Join(cs) + [QUOTE])
    ensures Reads(data, pos, CharsAt(data, pos), |Join(cs)| + 1)
    decreases |cs|
  {
    if cs == [] {
      assert (Join(cs) + [QUOTE])[0] == QUOTE;
    } else if pos < |data| {
      var c, rest := cs[0], cs[1..];
      assert Join(cs) + [QUOTE] == c + (Join(rest) + [QUOTE]);
      AgreesConcat(data, pos, c, Join(rest) + [QUOTE]);
      CharAccepts(data, pos, c);
      if pos + |c| <= |data| { CharsAccepts(data, pos + |c|, rest); }
    }
  }

  lemma StringAccepts(data: seq<byte>, pos: nat, cs: seq<seq<byte>>)
    requires pos < |data| && AllChars(cs) && Agrees(data, pos, RenderString(cs))
    ensures data[pos] == QUOTE && Reads(data, pos, CharsAt(data, pos + 1), |RenderString(cs)|)
  {
    AgreesConcat(data, pos, [QUOTE], Join(cs) + [QUOTE]);
    assert data[pos + 0] == [QUOTE][0];
    CharsAccepts(data, pos + 1, cs);
  }

  lemma {:induction false} LiteralAccepts(data: seq<byte>, pos: nat, text: seq<byte>, offset: nat)
    requires offset <= |text| && pos + offset <= |data| && text != [] && Agrees(data, pos, text)
    ensures Reads(data, pos, LiteralAt(data, pos, text, offset), |text|)
    decreases |text| - offset
  {
    if offset < |text| && pos + offset < |data| {
      assert data[pos + offset] == text[offset];
      LiteralAccepts(data, pos, text, offset + 1);
    }
  }

  lemma ExpAccepts(data: seq<byte>, pos: nat, exp: seq<byte>)
    requires pos <= |data| && IsExp(exp) && Agrees(data, pos, exp) && Delimited(data, pos + |exp|)
    ensures ReadsValue(data, pos, ExpAt(data, pos), |exp|)
  {
    if exp != [] && pos < |data| {
      assert data[pos + 0] == exp[0];
      if pos + 1 < |data| {
        assert data[pos + 1] == exp[1];
        var n := if IsSign(exp[1]) then 2 else 1;
        assert exp == exp[..n] + exp[n..];
        AgreesConcat(data, pos, exp[..n], exp[n..]);
        if pos + n < |data| {
          assert data[pos + n] == exp[n] && exp[n] == exp[n..][0];
          DigitRun(data, pos + n, exp[n..]);
        }
      }
    }
  }

  lemma FracAccepts(data: seq<byte>, pos: nat, frac: seq<byte>, exp: seq<byte>)
    requires pos <= |data| && IsFrac(frac) && IsExp(exp) && Agrees(data, pos, frac + exp)
    requires Delimited(data, pos + |frac| + |exp|)
    ensures ReadsValue(data, pos, FracAt(data, pos), |frac| + |exp|)
  {
    AgreesConcat(data, pos, frac, exp);
    if pos + |frac| < |data| && exp != [] { assert data[pos + |frac| + 0] == exp[0]; }
    if frac == [] {
      ExpAccepts(data, pos, exp);
    } else if pos < |data| {
      assert data[pos + 0] == frac[0];
      if pos + 1 < |data| {
        assert frac == frac[..1] + frac[1..];
        AgreesConcat(data, pos, frac[..1], frac[1..]);
        assert data[pos + 1] == frac[1] && frac[1] == frac[1..][0];
        DigitRun(data, pos + 1, frac[1..]);
        if pos + |frac| <= |data| { ExpAccepts(data, pos + |frac|, exp); }
      }
    }
  }

  lemma WholeAccepts(data: seq<byte>, pos: nat, whole: seq<byte>, frac: seq<byte>, exp: seq<byte>)
    requires pos < |data| && IsWhole(whole) && IsFrac(frac) && IsExp(exp)
    requires Agrees(data, pos, whole + (frac + exp)) && Delimited(data, pos + |whole| + |frac| + |exp|)
    ensures data[pos] != MINUS && ReadsValue(data, pos, NumberAt(data, pos), |whole| + |frac| + |exp|)
  {
    AgreesConcat(data, pos, whole, frac + exp);
    assert data[pos + 0] == whole[0];
    if pos + |whole| < |data| && frac + exp != [] {
      assert data[pos + |whole| + 0] == (frac + exp)[0];
    }
    if whole != [ZERO] { DigitRun(data, pos, whole); }
    if pos + |whole| <= |data| { FracAccepts(data, pos + |whole|, frac, exp); }
  }

  lemma NumberAccepts(data: seq<byte>, pos: nat, v: Value)
    requires pos < |data| && v.Number? && Wf(v)
    requires Agrees(data, pos, Render(v)) && Delimited(data, pos + |Render(v)|)
    ensures data[pos] == MINUS || IsDigit(data[pos])
    ensures ReadsValue(data, pos, NumberAt(data, pos), |Render(v)|)
  {
    var x := v.whole + (v.frac + v.exp);
    if v.minus {
      assert Render(v) == [MINUS] + x;
      MinusAccepts(data, pos, v.whole, v.frac, v.exp);
    } else {
      assert Render(v) == x;
      WholeAccepts(data, pos, v.whole, v.frac, v.exp);
      assert data[pos + 0] == x[0];
    }
  }

  lemma MinusAccepts(data: seq<byte>, pos: nat, whole: seq<byte>, frac: seq<byte>, exp: seq<byte>)
    requires pos < |data| && IsWhole(whole) && IsFrac(frac) && IsExp(exp)
    requires Agrees(data, pos, [MINUS] + (whole + (frac + exp)))
    requires Delimited(data, pos + 1 + |whole| + |frac| + |exp|)
    ensures data[pos] == MINUS && ReadsValue(data, pos, NumberAt(data, pos), 1 + |whole| + |frac| + |exp|)
  {
    AgreesConcat(data, pos, [MINUS], whole + (frac + exp));
    assert data[pos + 0] == [MINUS][0];
    if pos + 1 < |data| { WholeAccepts(data, pos + 1, whole, frac, exp); }
  }

  /** The scan of a construct that has `reach` as its deepest started value. */
  predicate Limited(data: seq<byte>, pos: nat, r: Scan, n: nat, reach: nat) {
    if reach > MAX_DEPTH then r.status.Invalid? else Reads(data, pos, r, n)
  }

  predicate LimitedValue(data: seq<byte>, pos: nat, r: Scan, n: nat, reach: nat) {
    if reach > MAX_DEPTH then r.status.Invalid? else ReadsValue(data, pos, r, n)
  }

  lemma RenderStarts(v: Value)
    requires Wf(v)
    ensures |Render(v)| > 0 && !IsWs(Render(v)[0]) && Render(v)[0] != Close(true) && Render(v)[0] != Close(false)
    ensures Render(v)[0] != COLON && Render(v)[0] != COMMA
  {
  }

  /** Whitespace and then a construct that does not start with any. */
  lemma WsThen(data: seq<byte>, pos: nat, w: seq<byte>, x: seq<byte>)
    requires pos <= |data| && AllWs(w) && x != [] && !IsWs(x[0]) && Agrees(data, pos, w + x)
    ensures SkipWs(data, pos) == if pos + |w| <= |data| then pos + |w| else |data|
    ensures Agrees(data, pos + |w|, x) && (pos + |w| < |data| ==> data[pos + |w|] == x[0])
  {
    AgreesConcat(data, pos, w, x);
    if pos + |w| < |data| { assert data[pos + |w| + 0] == x[0]; }
    WsRun(data, pos, w);
  }

  lemma TokenThen(data: seq<byte>, pos: nat, b: byte, x: seq<byte>)
    requires Agrees(data, pos, [b] + x)
    ensures Agrees(data, pos + 1, x) && (pos < |data| ==> data[pos] == b)
  {
    AgreesConcat(data, pos, [b], x);
    if pos < |data| { assert data[pos + 0] == [b][0]; }
  }

  lemma {:induction false} ValueAccepts(data: seq<byte>, pos: nat, p: nat, k: int, depth: nat, lead: seq<byte>,
                                        v: Value)
    requires pos <= |data| && p == pos + |lead| + |Render(v)| && k == |data| - pos - |lead|
    requires AllWs(lead) && Wf(v) && Agrees(data, pos, lead + Render(v)) && Delimited(data, p)
    ensures LimitedValue(data, pos, ValueAt(data, pos, depth), p - pos, depth + Reach(v, k))
    decreases v, 1
  {
    RenderStarts(v);
    WsThen(data, pos, lead, Render(v));
    var q := pos + |lead|;
    if q < |data| {
      BareAccepts(data, q, p, k, depth, v);
      ValueAfterWs(data, pos, q, p, depth, depth + Reach(v, k));
    } else {
      ReachNone(v, k);
      NoValue(data, pos, p, depth);
    }
  }

  lemma ValueAfterWs(data: seq<byte>, pos: nat, q: nat, p: nat, depth: nat, reach: nat)
    requires pos <= q < |data| && q <= p && SkipWs(data, pos) == q && !IsWs(data[q])
    requires LimitedValue(data, q, ValueAt(data, q, depth), p - q, reach)
    ensures LimitedValue(data, pos, ValueAt(data, pos, depth), p - pos, reach)
  {
  }

  lemma NoValue(data: seq<byte>, pos: nat, p: nat, depth: nat)
    requires pos <= |data| < p && SkipWs(data, pos) == |data|
    ensures LimitedValue(data, pos, ValueAt(data, pos, depth), p - pos, depth)
  {
  }

  lemma {:induction false} BareAccepts(data: seq<byte>, pos: nat, p: nat, k: int, depth: nat, v: Value)
    requires pos < |data| && p == pos + |Render(v)| && k == |data| - pos
    requires Wf(v) && Agrees(data, pos, Render(v)) && Delimited(data, p)
    ensures LimitedValue(data, pos, ValueAt(data, pos, depth), p - pos, depth + Reach(v, k))
    decreases v, 0
  {
    match v {
      case Empty(obj, ws) =>
        if depth <= MAX_DEPTH { EmptyAccepts(data, pos, depth + 1, obj, ws); }
        BracketLimited(data, pos, p, depth, obj, Render(v), depth);
      case Container(obj, ws, e) =>
        var m := k - 1 - |ws|;
        ReachInside(obj, ws, e, k, m);
        if depth <= MAX_DEPTH { ContainerAccepts(data, pos, m, depth + 1, obj, ws, e); }
        BracketLimited(data, pos, p, depth, obj, Render(v), depth + ReachEntries(e, m));
      case _ => AtomAccepts(data, pos, depth, v);
    }
  }

  lemma BracketLimited(data: seq<byte>, pos: nat, p: nat, depth: nat, obj: bool, x: seq<byte>, reach: nat)
    requires pos < |data| && p == pos + |x| && x != [] && x[0] == Open(obj) && Agrees(data, pos, x) && depth <= reach
    requires depth <= MAX_DEPTH ==> Limited(data, pos, ContainerAt(data, pos, depth + 1, obj), |x|, reach)
    ensures LimitedValue(data, pos, ValueAt(data, pos, depth), p - pos, reach)
  {
    Bracket(data, pos, depth, obj, x);
  }

  lemma ReachInside(obj: bool, ws: seq<byte>, e: Entries, k: int, m: int)
    requires m == k - 1 - |ws|
    ensures Reach(Container(obj, ws, e), k) == ReachEntries(e, m)
  {
  }

  lemma Bracket(data: seq<byte>, pos: nat, depth: nat, obj: bool, x: seq<byte>)
    requires pos < |data| && x != [] && x[0] == Open(obj) && Agrees(data, pos, x)
    ensures ValueAt(data, pos, depth) ==
            if depth > MAX_DEPTH then Scan(pos, Invalid) else ContainerAt(data, pos, depth + 1, obj)
  {
    assert data[pos + 0] == x[0];
  }

  lemma AtomAccepts(data: seq<byte>, pos: nat, depth: nat, v: Value)
    requires pos < |data| && Wf(v) && Agrees(data, pos, Render(v)) && Delimited(data, pos + |Render(v)|)
    requires v.Literal? || v.Number? || v.String?
    ensures LimitedValue(data, pos, ValueAt(data, pos, depth), |Render(v)|, depth)
  {
    match v
    case Literal(text) => LiteralValue(data, pos, depth, text);
    case Number(_, _, _, _) =>
      NumberAccepts(data, pos, v);
      NumberValue(data, pos, depth);
    case String(cs) =>
      StringAccepts(data, pos, cs);
      StringValue(data, pos, depth);
  }

  lemma LiteralValue(data: seq<byte>, pos: nat, depth: nat, text: seq<byte>)
    requires pos < |data| && (text == TRUE || text == FALSE || text == NULL) && Agrees(data, pos, text)
    ensures LimitedValue(data, pos, ValueAt(data, pos, depth), |text|, depth)
  {
    assert data[pos + 0] == text[0];
    LiteralAccepts(data, pos, text, 0);
  }

  lemma NumberValue(data: seq<byte>, pos: nat, depth: nat)
    requires pos < |data| && (data[pos] == MINUS || IsDigit(data[pos]))
    ensures ValueAt(data, pos, depth) == if depth > MAX_DEPTH then Scan(pos, Invalid) else NumberAt(data, pos)
  {
  }

  lemma StringValue(data: seq<byte>, pos: nat, depth: nat)
    requires pos < |data| && data[pos] == QUOTE
    ensures ValueAt(data, pos, depth) == if depth > MAX_DEPTH then Scan(pos, Invalid) else CharsAt(data, pos + 1)
  {
  }

  lemma EmptyAccepts(data: seq<byte>, pos: nat, depth: nat, obj: bool, ws: seq<byte>)
    requires pos < |data| && AllWs(ws) && Agrees(data, pos, [Open(obj)] + (ws + [Close(obj)]))
    ensures Reads(data, pos, ContainerAt(data, pos, depth, obj), |ws| + 2)
  {
    TokenThen(data, pos, Open(obj), ws + [Close(obj)]);
    WsThen(data, pos + 1, ws, [Close(obj)]);
  }

  lemma {:induction false} ContainerAccepts(data: seq<byte>, pos: nat, k: int, depth: nat, obj: bool, ws: seq<byte>,
                                            e: Entries)
    requires pos < |data| && 1 <= depth <= MAX_DEPTH + 1 && AllWs(ws) && WfEntries(e, obj)
    requires k == |data| - pos - 1 - |ws| && Agrees(data, pos, [Open(obj)] + (ws + RenderEntries(e, obj)))
    ensures Limited(data, pos, ContainerAt(data, pos, depth, obj), 1 + |ws| + |RenderEntries(e, obj)|,
                    depth - 1 + ReachEntries(e, k))
    decreases e, 4
  {
    var x := RenderEntries(e, obj);
    EntriesStart(e, obj);
    TokenThen(data, pos, Open(obj), ws + x);
    WsThen(data, pos + 1, ws, x);
    var p := pos + 1 + |ws|;
    if p < |data| {
      EntriesAccepts(data, p, k, depth, obj, e);
    } else {
      EntriesReachNone(e, k);
    }
    ContainerLimited(data, pos, p, depth, obj, |x|, depth - 1 + ReachEntries(e, k));
  }

  lemma ContainerLimited(data: seq<byte>, pos: nat, p: nat, depth: nat, obj: bool, m: nat, reach: nat)
    requires pos < p && pos < |data| && m > 0 && SkipWs(data, pos + 1) == if p <= |data| then p else |data|
    requires p < |data| ==> data[p] != Close(obj) && Limited(data, p, EntriesAt(data, p, depth, obj), m, reach)
    requires p >= |data| ==> reach <= MAX_DEPTH
    ensures Limited(data, pos, ContainerAt(data, pos, depth, obj), p - pos + m, reach)
  {
  }

  lemma EntriesStart(e: Entries, obj: bool)
    requires WfEntries(e, obj)
    ensures var x := RenderEntries(e, obj); |x| > 0 && !IsWs(x[0]) && x[0] != Close(obj)
  {
    RenderStarts(e.v);
  }

  lemma KeyAccepts(data: seq<byte>, pos: nat, k: Key)
    requires pos < |data| && WfKey(k, true) && Agrees(data, pos, RenderKey(k))
    ensures Reads(data, pos, KeyAt(data, pos), |RenderKey(k)|)
  {
    var x, y := RenderString(k.chars), k.beforeColon + [COLON];
    var q := pos + |x|;
    assert RenderKey(k) == x + y;
    AgreesConcat(data, pos, x, y);
    StringAccepts(data, pos, k.chars);
    if q <= |data| { WsThen(data, q, k.beforeColon, [COLON]); }
    KeyReads(data, pos, q, |k.beforeColon|);
  }

  lemma KeyReads(data: seq<byte>, pos: nat, q: nat, n: nat)
    requires pos < q && pos < |data| && data[pos] == QUOTE && Reads(data, pos, CharsAt(data, pos + 1), q - pos)
    requires q <= |data| ==> SkipWs(data, q) == if q + n <= |data| then q + n else |data|
    requires q + n < |data| ==> data[q + n] == COLON
    ensures Reads(data, pos, KeyAt(data, pos), q - pos + n + 1)
  {
  }

  lemma SlotAccepts(data: seq<byte>, pos: nat, obj: bool, k: Key)
    requires pos < |data|
    ensures WfKey(k, obj) && Agrees(data, pos, RenderKey(k))
            ==> Reads(data, pos, SlotAt(data, pos, obj), |RenderKey(k)|)
  {
    if obj && WfKey(k, obj) && Agrees(data, pos, RenderKey(k)) { KeyAccepts(data, pos, k); }
  }

  lemma AgreesFour(data: seq<byte>, pos: nat, q: nat, p: nat, w: seq<byte>, x: seq<byte>, y: seq<byte>, z: seq<byte>)
    requires q == pos + |w| && p == q + |x| + |y|
    requires Agrees(data, pos, w + (x + (y + z))) && z != [] && Delim(z[0])
    ensures Agrees(data, pos, w) && Agrees(data, q, x + y) && Agrees(data, p, z) && Delimited(data, p)
  {
    AgreesConcat(data, pos, w, x + (y + z));
    AgreesThree(data, pos + |w|, x, y, z);
  }

  lemma {:induction false} EntriesAccepts(data: seq<byte>, pos: nat, k: int, depth: nat, obj: bool, e: Entries)
    requires pos < |data| && 1 <= depth <= MAX_DEPTH + 1 && k == |data| - pos
    requires WfEntries(e, obj) && Agrees(data, pos, RenderEntries(e, obj))
    ensures Limited(data, pos, EntriesAt(data, pos, depth, obj), |RenderEntries(e, obj)|,
                    depth - 1 + ReachEntries(e, k))
    decreases e, 3
  {
    var q := pos + |RenderKey(e.key)|;
    var m := |data| - q;
    SlotPart(data, pos, q, obj, e);
    if q <= |data| { BodyPart(data, pos, q, m, depth, obj, e); }
    EntriesReach(e, k, m);
    EntriesSize(e, obj);
    EntriesLimited(data, pos, q, depth, obj, |RenderKey(e.key)|, BodySize(e, obj), |RenderEntries(e, obj)|,
                   depth - 1 + ReachBody(e, m), depth - 1 + ReachEntries(e, k));
  }

  lemma SlotPart(data: seq<byte>, pos: nat, q: nat, obj: bool, e: Entries)
    requires pos < |data| && WfEntries(e, obj) && Agrees(data, pos, RenderEntries(e, obj))
    requires q == pos + |RenderKey(e.key)|
    ensures Reads(data, pos, SlotAt(data, pos, obj), |RenderKey(e.key)|)
  {
    EntriesParts(data, pos, q, q + |e.lead| + |Render(e.v)|, obj, e);
    SlotAccepts(data, pos, obj, e.key);
  }

  /** The bytes of an entry after its name, and of all that follow it. */
  function BodySize(e: Entries, obj: bool): nat { |e.lead| + |Render(e.v)| + |RenderAfter(e, obj)| }

  lemma {:induction false} BodyPart(data: seq<byte>, pos: nat, q: nat, k: int, depth: nat, obj: bool, e: Entries)
    requires pos < |data| && 1 <= depth <= MAX_DEPTH + 1 && k == |data| - q
    requires WfEntries(e, obj) && Agrees(data, pos, RenderEntries(e, obj))
    requires q == pos + |RenderKey(e.key)| <= |data|
    ensures Limited(data, q, BodyAt(data, q, depth, obj), BodySize(e, obj), depth - 1 + ReachBody(e, k))
    decreases e, 2, 1
  {
    var p := q + |e.lead| + |Render(e.v)|;
    EntriesParts(data, pos, q, p, obj, e);
    BodyAccepts(data, q, p, k, depth, obj, e);
  }

  lemma EntriesSize(e: Entries, obj: bool)
    ensures |RenderEntries(e, obj)| == |RenderKey(e.key)| + BodySize(e, obj)
  {
  }

  lemma EntriesReach(e: Entries, k: int, m: int)
    requires m == k - |RenderKey(e.key)| && k > 0
    ensures ReachEntries(e, k) == if m < 0 then 0 else ReachBody(e, m)
  {
  }

  lemma EntriesParts(data: seq<byte>, pos: nat, q: nat, p: nat, obj: bool, e: Entries)
    requires q == pos + |RenderKey(e.key)| && p == q + |e.lead| + |Render(e.v)|
    ensures WfEntries(e, obj) && Agrees(data, pos, RenderEntries(e, obj))
            ==> && WfKey(e.key, obj) && Agrees(data, pos, RenderKey(e.key)) && Agrees(data, q, e.lead + Render(e.v))
                && Agrees(data, p, RenderAfter(e, obj)) && Delimited(data, p)
    ensures |RenderEntries(e, obj)| == p - pos + |RenderAfter(e, obj)|
  {
    if !WfEntries(e, obj) || !Agrees(data, pos, RenderEntries(e, obj)) { return; }
    AfterStarts(e, obj);
    AgreesFour(data, pos, q, p, RenderKey(e.key), e.lead, Render(e.v), RenderAfter(e, obj));
  }

  lemma EntriesLimited(data: seq<byte>, pos: nat, q: nat, depth: nat, obj: bool, n: nat, m: nat, all: nat,
                       inner: nat, reach: nat)
    requires pos < |data| && q == pos + n && all == n + m && Reads(data, pos, SlotAt(data, pos, obj), n)
    requires q <= |data| ==> Limited(data, q, BodyAt(data, q, depth, obj), m, inner) && reach == inner
    requires q > |data| ==> reach <= MAX_DEPTH
    ensures Limited(data, pos, EntriesAt(data, pos, depth, obj), all, reach)
  {
  }

  lemma {:induction false} BodyAccepts(data: seq<byte>, pos: nat, p: nat, k: int, depth: nat, obj: bool, e: Entries)
    requires pos <= |data| && 1 <= depth <= MAX_DEPTH + 1 && p == pos + |e.lead| + |Render(e.v)| && k == |data| - pos
    requires WfEntries(e, obj) && Delimited(data, p)
    requires Agrees(data, pos, e.lead + Render(e.v)) && Agrees(data, p, RenderAfter(e, obj))
    ensures Limited(data, pos, BodyAt(data, pos, depth, obj), BodySize(e, obj), depth - 1 + ReachBody(e, k))
    decreases e, 2, 0
  {
    var kv, ka := k - |e.lead|, |data| - p;
    ValueAccepts(data, pos, p, kv, depth, e.lead, e.v);
    AfterOrEnd(data, p, ka, depth, obj, e);
    ReachBodyIs(e, k, kv, ka);
    BodyLimited(data, pos, p, depth, obj, |RenderAfter(e, obj)|, BodySize(e, obj), depth + Reach(e.v, kv),
                depth - 1 + ReachAfter(e, ka), depth - 1 + ReachBody(e, k));
  }

  lemma ReachBodyIs(e: Entries, k: int, kv: int, ka: int)
    requires kv == k - |e.lead| && ka == kv - |Render(e.v)|
    ensures ReachBody(e, k) == if 1 + Reach(e.v, kv) < ReachAfter(e, ka) then ReachAfter(e, ka) else 1 + Reach(e.v, kv)
  {
  }

  lemma BodyLimited(data: seq<byte>, pos: nat, p: nat, depth: nat, obj: bool, m: nat, all: nat, h: nat, t: nat, b: nat)
    requires pos <= |data| && pos <= p && all == p - pos + m && b == (if h < t then t else h)
    requires LimitedValue(data, pos, ValueAt(data, pos, depth), p - pos, h)
    requires AfterLimited(data, p, depth, obj, m, t)
    ensures Limited(data, pos, BodyAt(data, pos, depth, obj), all, b)
  {
  }

  predicate AfterLimited(data: seq<byte>, p: nat, depth: nat, obj: bool, m: nat, t: nat) {
    m > 0 &&
    if p <= |data| then Limited(data, p, AfterAt(data, p, depth, obj), m, t)
    else AfterAt(data, |data|, depth, obj).status.Incomplete? && t <= MAX_DEPTH
  }

  lemma {:induction false} AfterOrEnd(data: seq<byte>, p: nat, k: int, depth: nat, obj: bool, e: Entries)
    requires 1 <= depth <= MAX_DEPTH + 1 && k == |data| - p && WfEntries(e, obj) && Agrees(data, p, RenderAfter(e, obj))
    ensures AfterLimited(data, p, depth, obj, |RenderAfter(e, obj)|, depth - 1 + ReachAfter(e, k))
    decreases e, 1, 1
  {
    AfterStarts(e, obj);
    if p <= |data| {
      AfterAccepts(data, p, k, depth, obj, e);
    } else if e.More? {
      EntriesReachNone(e.rest, k - |e.after| - 1 - |e.before|);
    }
  }

  lemma AfterStarts(e: Entries, obj: bool)
    requires WfEntries(e, obj)
    ensures var y := RenderAfter(e, obj); |y| > 0 && Delim(y[0])
  {
  }

  lemma {:induction false} AfterAccepts(data: seq<byte>, pos: nat, k: int, depth: nat, obj: bool, e: Entries)
    requires pos <= |data| && 1 <= depth <= MAX_DEPTH + 1 && k == |data| - pos
    requires WfEntries(e, obj) && Agrees(data, pos, RenderAfter(e, obj))
    ensures Limited(data, pos, AfterAt(data, pos, depth, obj), |RenderAfter(e, obj)|, depth - 1 + ReachAfter(e, k))
    decreases e, 1, 0
  {
    match e
    case Last(_, _, _, after) =>
      WsThen(data, pos, after, [Close(obj)]);
      CloseAt(data, pos, pos + |after|, depth, obj);
    case More(_, _, _, after, before, rest) =>
      var x := RenderEntries(rest, obj);
      WsThen(data, pos, after, [COMMA] + (before + x));
      var p, n := pos + |after|, k - |after| - 1 - |before|;
      if p < |data| {
        TokenThen(data, p, COMMA, before + x);
        CommaAccepts(data, p, n, depth, obj, before, rest);
      } else {
        EntriesReachNone(rest, n);
      }
      AfterWs(data, pos, p, depth, obj, 1 + |before| + |x|, depth - 1 + ReachEntries(rest, n));
  }

  lemma CloseAt(data: seq<byte>, pos: nat, p: nat, depth: nat, obj: bool)
    requires pos <= p && pos <= |data| && SkipWs(data, pos) == if p <= |data| then p else |data|
    requires p < |data| ==> data[p] == Close(obj)
    ensures Reads(data, pos, AfterAt(data, pos, depth, obj), p - pos + 1)
  {
  }

  lemma AfterWs(data: seq<byte>, pos: nat, p: nat, depth: nat, obj: bool, m: nat, reach: nat)
    requires pos <= p && pos <= |data| && m > 0 && SkipWs(data, pos) == if p <= |data| then p else |data|
    requires p < |data| ==> !IsWs(data[p]) && Limited(data, p, AfterAt(data, p, depth, obj), m, reach)
    requires p >= |data| ==> reach <= MAX_DEPTH
    ensures Limited(data, pos, AfterAt(data, pos, depth, obj), p - pos + m, reach)
  {
  }

  lemma {:induction false} CommaAccepts(data: seq<byte>, p: nat, k: int, depth: nat, obj: bool, before: seq<byte>,
                                        rest: Entries)
    requires p < |data| && data[p] == COMMA && 1 <= depth <= MAX_DEPTH + 1 && AllWs(before) && WfEntries(rest, obj)
    requires k == |data| - p - 1 - |before| && Agrees(data, p + 1, before + RenderEntries(rest, obj))
    ensures Limited(data, p, AfterAt(data, p, depth, obj), 1 + |before| + |RenderEntries(rest, obj)|,
                    depth - 1 + ReachEntries(rest, k))
    decreases rest, 4
  {
    EntriesStart(rest, obj);
    WsThen(data, p + 1, before, RenderEntries(rest, obj));
    var n := p + 1 + |before|;
    if n < |data| {
      EntriesAccepts(data, n, k, depth, obj, rest);
    } else {
      EntriesReachNone(rest, k);
    }
    CommaLimited(data, p, n, depth, obj, |RenderEntries(rest, obj)|, depth - 1 + ReachEntries(rest, k));
  }

  lemma CommaLimited(data: seq<byte>, p: nat, n: nat, depth: nat, obj: bool, m: nat, reach: nat)
    requires p < n && p < |data| && data[p] == COMMA && m > 0
    requires SkipWs(data, p + 1) == if n <= |data| then n else |data|
    requires n < |data| ==> data[n] != Close(obj) && Limited(data, n, EntriesAt(data, n, depth, obj), m, reach)
    requires n >= |data| ==> reach <= MAX_DEPTH
    ensures Limited(data, p, AfterAt(data, p, depth, obj), n - p + m, reach)
  {
    CommaAt(data, p, depth, obj);
  }

  lemma CommaAt(data: seq<byte>, p: nat, depth: nat, obj: bool)
    requires p < |data| && data[p] == COMMA
    ensures var n := SkipWs(data, p + 1);
      AfterAt(data, p, depth, obj) ==
        if n == |data| then Scan(n, Incomplete)
        else if data[n] == Close(obj) then Scan(n, Invalid)
        else EntriesAt(data, n, depth, obj)
  {
  }

  lemma TopAccepted(data: seq<byte>, p: nat, k: int, v: Value, after: seq<byte>)
    requires p < |data| && k == |data| - p <= |Render(v)| + |after| && Wf(v) && AllWs(after)
    requires Agrees(data, p, Render(v) + after)
    ensures AcceptsFrom(data, p) <==> Reach(v, k) <= MAX_DEPTH
  {
    AgreesConcat(data, p, Render(v), after);
    var q := p + |Render(v)|;
    if q < |data| { assert data[q + 0] == after[0]; }
    BareAccepts(data, p, q, k, 0, v);
    WsRun(data, |data|, []);
    if q <= |data| { WsRun(data, q, after); }
  }

  /** For every JSON text and every cut of it, acceptance is exactly that no
      value was started below the nesting limit. */
  lemma PrefixAccepted(t: Text, data: seq<byte>)
    requires WfText(t) && Begins(data, RenderText(t))
    ensures Accepts(data) <==> ReachText(t, |data|) <= MAX_DEPTH
  {
    AgreesPrefix(data, RenderText(t));
    ReachTextIs(t, |data|, |data| - |t.before|);
    TextAccepted(t, data, |data| - |t.before|);
  }

  lemma TextStarts(v: Value, after: seq<byte>)
    ensures Wf(v) ==> var x := Render(v) + after; x != [] && !IsWs(x[0])
  {
    if Wf(v) {
      RenderStarts(v);
      assert (Render(v) + after)[0] == Render(v)[0];
    }
  }

  lemma TopOrEnd(data: seq<byte>, p: nat, k: int, v: Value, after: seq<byte>)
    requires k == |data| - p <= |Render(v)| + |after| && Wf(v) && AllWs(after) && Agrees(data, p, Render(v) + after)
    ensures p >= |data| || AcceptsFrom(data, p) <==> Reach(v, k) <= MAX_DEPTH
  {
    if p < |data| {
      TopAccepted(data, p, k, v, after);
    } else {
      ReachNone(v, k);
    }
  }

  lemma AcceptsIs(data: seq<byte>, p: nat)
    requires SkipWs(data, 0) == if p <= |data| then p else |data|
    ensures Accepts(data) <==> p >= |data| || AcceptsFrom(data, p)
  {
  }

  lemma CutAccepted(data: seq<byte>, w: seq<byte>, k: int, v: Value, after: seq<byte>)
    requires k == |data| - |w| <= |Render(v)| + |after| && AllWs(w) && Wf(v) && AllWs(after)
    requires Agrees(data, 0, w + (Render(v) + after))
    ensures Accepts(data) <==> Reach(v, k) <= MAX_DEPTH
  {
    TextStarts(v, after);
    WsThen(data, 0, w, Render(v) + after);
    AcceptsIs(data, |w|);
    TopOrEnd(data, |w|, k, v, after);
  }

  lemma ReachTextIs(t: Text, n: nat, k: int)
    requires k == n - |t.before|
    ensures ReachText(t, n) == Reach(t.v, k)
  {
  }

  lemma TextAccepted(t: Text, data: seq<byte>, k: int)
    requires WfText(t) && |data| <= |RenderText(t)| && Agrees(data, 0, RenderText(t)) && k == |data| - |t.before|
    ensures Accepts(data) <==> Reach(t.v, k) <= MAX_DEPTH
  {
    CutAccepted(data, t.before, k, t.v, t.after);
  }

  lemma AgreesPrefix(data: seq<byte>, text: seq<byte>)
    requires Begins(data, text)
    ensures Agrees(data, 0, text) && |data| <= |text|
  {
    BeginsIsPrefix(data, text);
  }

  lemma EntriesReachNone(e: Entries, k: int)
    requires k <= 0
    ensures ReachEntries(e, k) == 0
  {
  }

  lemma ReachNone(v: Value, k: int)
    requires k <= 0
    ensures Reach(v, k) == 0
  {
  }

  lemma {:induction false} ReachBelowHeight(v: Value, k: int)
    ensures Reach(v, k) <= Height(v)
    decreases v
  {
    if v.Container? { EntriesReachBelowHeight(v.entries, k - 1 - |v.ws|); }
  }

  lemma {:induction false} EntriesReachBelowHeight(e: Entries, k: int)
    ensures ReachEntries(e, k) <= HeightEntries(e)
    decreases e
  {
    var k1 := k - |RenderKey(e.key)| - |e.lead|;
    var k2 := k1 - |Render(e.v)|;
    ReachBelowHeight(e.v, k1);
    if e.More? { EntriesReachBelowHeight(e.rest, k2 - |e.after| - 1 - |e.before|); }
    assert ReachAfter(e, k2) <= HeightEntries(e);
    assert ReachBody(e, k - |RenderKey(e.key)|) <= HeightEntries(e);
  }

  /** Every prefix of a text nested at most 10,000 deep is accepted. */
  lemma ShallowAccepted(t: Text, data: seq<byte>)
    requires WfText(t) && Begins(data, RenderText(t)) && Height(t.v) <= MAX_DEPTH
    ensures Accepts(data)
  {
    PrefixAccepted(t, data);
    ReachBelowHeight(t.v, |data| - |t.before|);
  }

  /** `t` is a JSON text that begins with `data`, whose bytes start none of its
      values below the nesting limit. */
  ghost predicate Extension(data: seq<byte>, t: Text) {
    WfText(t) && Begins(data, RenderText(t)) && ReachText(t, |data|) <= MAX_DEPTH
  }

  /** The recogniser decides, for every byte string, whether it has an extension. */
  lemma AcceptsExactly(data: seq<byte>)
    ensures Accepts(data) <==> exists t :: Extension(data, t)
  {
    if Accepts(data) {
      var t := JsonSound.AcceptedExtends(data);
      PrefixAccepted(t, data);
      assert Extension(data, t);
    }
    forall t | Extension(data, t) ensures Accepts(data) { PrefixAccepted(t, data); }
  }

  /** Arrays nested `n` levels around an empty one. */
  function Nest(n: nat): Value {
    if n == 0 then Empty(false, []) else Container(false, [], Last(NoKey, [], Nest(n - 1), []))
  }

  /** A single element of an array with no whitespace around it. */
  function Only(v: Value): Entries { Last(NoKey, [], v, []) }

  lemma OnlySize(v: Value)
    ensures |RenderEntries(Only(v), false)| == |Render(v)| + 1 && (Wf(v) ==> WfEntries(Only(v), false))
  {
    assert Only(v).key.NoKey? && RenderKey(NoKey) == [];
    assert RenderAfter(Only(v), false) == [] + [Close(false)];
  }

  lemma OnlyReach(v: Value, k: int)
    requires k > 0
    ensures ReachEntries(Only(v), k) == 1 + Reach(v, k)
  {
    assert RenderKey(Only(v).key) == [];
    assert ReachAfter(Only(v), k - 0 - |Render(v)|) == 0;
  }

  lemma {:induction false} NestReach(n: nat, k: int)
    requires k >= |Render(Nest(n))|
    ensures Wf(Nest(n)) && |Render(Nest(n))| == 2 * n + 2 && Reach(Nest(n), k) == n
    decreases n
  {
    if n > 0 {
      var v := Nest(n - 1);
      assert Nest(n) == Container(false, [], Only(v));
      OnlySize(v);
      NestReach(n - 1, k - 1);
      OnlyReach(v, k - 1);
    }
  }

  /** The limit shows: of the arrays nested in one another, all of them JSON
      texts, exactly those up to 10,001 deep are accepted. */
  lemma NestAccepted(n: nat)
    ensures WfText(Text([], Nest(n), [])) && (Accepts(Render(Nest(n))) <==> n <= MAX_DEPTH)
  {
    NestReach(n, |Render(Nest(n))|);
    WholeAccepted(Nest(n));
  }

  lemma WholeAccepted(v: Value)
    requires Wf(v)
    ensures WfText(Text([], v, [])) && (Accepts(Render(v)) <==> Reach(v, |Render(v)|) <= MAX_DEPTH)
  {
    assert RenderText(Text([], v, [])) == Render(v);
    assert Render(v) + [] == Render(v);
    PrefixAccepted(Text([], v, []), Render(v));
  }
}
