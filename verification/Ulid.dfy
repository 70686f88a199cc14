/** Stream identifiers: 16 bytes written as 26 characters of Crockford Base32,
    and the generator that never goes backwards. Text is a sequence of character
    codes. */
module Ulid {
  import opened Options
  import opened Sequences
  import opened UlidBits

  const LENGTH: nat := 26
  const BYTES: nat := 16
  const TIME_BYTES: nat := 6
  const ENTROPY: nat := 10
  const MAX_TIME: nat := 0xFFFF_FFFF_FFFF

  predicate Raw(raw: seq<nat>) { |raw| == BYTES && AllBelow(raw, 256) }

  /** The lower-case alphabet, which leaves out i, l, o and u. */
  function Symbol(v: nat): nat {
    if v < 10 then 48 + v
    else if v < 18 then 87 + v
    else if v < 20 then 88 + v
    else if v < 22 then 89 + v
    else if v < 27 then 90 + v
    else 91 + v
  }

  function SymbolValue(c: nat): (v: Option<nat>)
    ensures v.Some? ==> v.value < 32 && Symbol(v.value) == c
  {
    if 48 <= c <= 57 then Some(c - 48)
    else if 97 <= c <= 104 then Some(c - 87)
    else if 106 <= c <= 107 then Some(c - 88)
    else if 109 <= c <= 110 then Some(c - 89)
    else if 112 <= c <= 116 then Some(c - 90)
    else if 118 <= c <= 122 then Some(c - 91)
    else None
  }

  function Text(values: seq<nat>): (text: seq<nat>)
    ensures |text| == |values| && forall i | 0 <= i < |text| :: text[i] == Symbol(values[i])
  {
    if values == [] then [] else [Symbol(values[0])] + Text(values[1..])
  }

  /** Every character is in the alphabet. */
  function Values(text: seq<nat>): (values: Option<seq<nat>>)
    ensures values.Some? ==> |values.value| == |text| && AllBelow(values.value, 32)
  {
    if text == [] then Some([])
    else
      var first, rest := SymbolValue(text[0]), Values(text[1..]);
      if first.None? || rest.None? then None else Some([first.value] + rest.value)
  }

  lemma {:induction false} TextOfValues(text: seq<nat>)
    requires Values(text).Some?
    ensures Text(Values(text).value) == text
    decreases |text|
  {
    if text != [] { TextOfValues(text[1..]); }
  }

  lemma {:induction false} ValuesOfText(values: seq<nat>)
    requires AllBelow(values, 32)
    ensures Values(Text(values)) == Some(values)
    decreases |values|
  {
    if values != [] {
      ValuesOfText(values[1..]);
      assert Text(values)[1..] == Text(values[1..]);
      assert SymbolValue(Symbol(values[0])) == Some(values[0]);
      assert [values[0]] + values[1..] == values;
    }
  }

  lemma Sizes()
    ensures Times(BYTES, 8) == 128 && Times(LENGTH, 5) == 130
  {
    TimesIs(BYTES, 8);
    TimesIs(LENGTH, 5);
  }

  /** The two leading bits of the 130 are padding. */
  function Groups(raw: seq<nat>): seq<nat>
    requires Raw(raw)
  {
    Sizes();
    Grouped([0, 0] + Flat(raw, 8), 5, LENGTH)
  }

  function Encoded(raw: seq<nat>): seq<nat>
    requires Raw(raw)
  {
    Text(Groups(raw))
  }

  function Decoded(text: seq<nat>): Option<seq<nat>> {
    if |text| != LENGTH || Values(text).None? || Values(text).value[0] > 7 then None
    else
      Sizes();
      Some(Grouped(Flat(Values(text).value, 5)[2..], 8, BYTES))
  }

  lemma Powers()
    ensures Pow2(3) == 8 && Pow2(5) == 32 && Pow2(8) == 256
  {
    assert Pow2(3) == 2 * Pow2(2) && Pow2(2) == 2 * Pow2(1) && Pow2(1) == 2;
    assert Pow2(5) == 2 * Pow2(4) && Pow2(4) == 2 * Pow2(3);
    assert Pow2(8) == 2 * Pow2(7) && Pow2(7) == 2 * Pow2(6) && Pow2(6) == 2 * Pow2(5);
  }

  lemma FirstTwo(v: nat)
    requires v < 32
    ensures Bits(v, 5)[0] == v / 16 && Bits(v, 5)[1] == v / 8 % 2
  {
    Powers();
    BitAt(v, 5, 0);
    BitAt(v, 5, 1);
    assert Pow2(4) == 16;
  }

  lemma GroupsFlat(raw: seq<nat>)
    requires Raw(raw)
    ensures AllBelow(Groups(raw), 32) && Flat(Groups(raw), 5) == [0, 0] + Flat(raw, 8) && Groups(raw)[0] <= 7
  {
    Powers();
    Sizes();
    FlatBelow(raw, 8);
    FlatGrouped([0, 0] + Flat(raw, 8), 5, LENGTH);
    FlatAt(Groups(raw), 5, 0, 0);
    FlatAt(Groups(raw), 5, 0, 1);
    FirstTwo(Groups(raw)[0]);
  }

  lemma EncodeThenDecode(raw: seq<nat>)
    requires Raw(raw)
    ensures Decoded(Encoded(raw)) == Some(raw)
  {
    Powers();
    GroupsFlat(raw);
    ValuesOfText(Groups(raw));
    GroupedFlat(raw, 8);
    assert ([0, 0] + Flat(raw, 8))[2..] == Flat(raw, 8);
  }

  /** Every accepted text is the encoding of what it decodes to. */
  lemma DecodeThenEncode(text: seq<nat>)
    requires Decoded(text).Some?
    ensures Raw(Decoded(text).value) && Encoded(Decoded(text).value) == text
  {
    Powers();
    var values := Values(text).value;
    Sizes();
    TextOfValues(text);
    PaddingClear(values);
    FlatBelow(values, 5);
    FlatGrouped(Flat(values, 5)[2..], 8, BYTES);
    GroupedFlat(values, 5);
  }

  lemma PaddingClear(values: seq<nat>)
    requires |values| == LENGTH && AllBelow(values, 32) && values[0] <= 7
    ensures [0, 0] + Flat(values, 5)[2..] == Flat(values, 5)
  {
    FirstTwo(values[0]);
    LeadingZeros(values, 5);
    ZerosAhead(Flat(values, 5));
  }

  lemma LeadingZeros(values: seq<nat>, w: nat)
    requires values != [] && w >= 2 && Bits(values[0], w)[0] == 0 && Bits(values[0], w)[1] == 0
    ensures |Flat(values, w)| >= 2 && Flat(values, w)[0] == 0 && Flat(values, w)[1] == 0
  {
    FlatAt(values, w, 0, 0);
    FlatAt(values, w, 0, 1);
  }

  lemma ZerosAhead(bits: seq<nat>)
    requires |bits| >= 2 && bits[0] == 0 && bits[1] == 0
    ensures [0, 0] + bits[2..] == bits
  {
  }

  lemma {:induction false} TextOrder(a: seq<nat>, b: seq<nat>)
    requires |a| == |b| && AllBelow(a, 32) && AllBelow(b, 32)
    ensures Less(Text(a), Text(b)) <==> Less(a, b)
    decreases |a|
  {
    if a != [] {
      TextOrder(a[1..], b[1..]);
      assert Text(a)[1..] == Text(a[1..]) && Text(b)[1..] == Text(b[1..]);
    }
  }

  /** Identifiers sort as their bytes do. */
  lemma EncodedOrder(a: seq<nat>, b: seq<nat>)
    requires Raw(a) && Raw(b)
    ensures Less(Encoded(a), Encoded(b)) <==> Less(a, b)
  {
    Powers();
    GroupsFlat(a);
    GroupsFlat(b);
    TextOrder(Groups(a), Groups(b));
    FlatOrder(Groups(a), Groups(b), 5);
    LessConcat([0, 0], [0, 0], Flat(a, 8), Flat(b, 8));
    FlatOrder(a, b, 8);
    assert !Less([0, 0], [0, 0]);
  }

  /** One bit of the input, found by shift and mask. */
  lemma InputBit(raw: seq<nat>, at: nat)
    requires Raw(raw) && at < 128
    ensures |Flat(raw, 8)| == 128 && Flat(raw, 8)[at] == (raw[at / 8] / Pow2(7 - at % 8)) % 2
  {
    Sizes();
    TimesIs(at / 8, 8);
    FlatAt(raw, 8, at / 8, at % 8);
    BitAt(raw[at / 8], 8, at % 8);
  }

  lemma NextBit(bits: seq<nat>, from: nat, at: nat)
    requires from <= at < |bits|
    ensures FromBits(bits[from..at + 1]) == 2 * FromBits(bits[from..at]) + bits[at]
  {
    assert bits[from..at + 1] == bits[from..at] + [bits[at]];
    FromBitsMore(bits[from..at], bits[at]);
  }

  /** A bit of the padded input. */
  method PaddedBit(raw: seq<nat>, at: nat) returns (bit: nat)
    requires Raw(raw) && at < 130
    ensures |[0, 0] + Flat(raw, 8)| == 130 && bit == ([0, 0] + Flat(raw, 8))[at]
  {
    Sizes();
    if at < 2 { return 0; }
    InputBit(raw, at - 2);
    bit := (raw[(at - 2) / 8] / Pow2(7 - (at - 2) % 8)) % 2;
  }

  /** Five bits, the first two of all being padding. */
  method CharValue(raw: seq<nat>, charIndex: nat) returns (value: nat)
    requires Raw(raw) && charIndex < LENGTH
    ensures value == Groups(raw)[charIndex]
  {
    value := 0;
    Sizes();
    ghost var padded := [0, 0] + Flat(raw, 8);
    var from := 5 * charIndex;
    for bitOffset := 0 to 5
      invariant value == FromBits(padded[from..from + bitOffset])
    {
      NextBit(padded, from, from + bitOffset);
      var bit := PaddedBit(raw, from + bitOffset);
      value := 2 * value + bit;
    }
    TimesIs(charIndex, 5);
    GroupAt(padded, 5, LENGTH, charIndex, from, padded[from..from + 5]);
  }

  method EncodeULID(raw: seq<nat>) returns (encoded: seq<nat>)
    requires Raw(raw)
    ensures encoded == Encoded(raw)
  {
    encoded := [];
    for charIndex := 0 to LENGTH
      invariant encoded == Text(Groups(raw)[..charIndex])
    {
      var value := CharValue(raw, charIndex);
      TextMore(Groups(raw)[..charIndex], value);
      assert Groups(raw)[..charIndex + 1] == Groups(raw)[..charIndex] + [value];
      encoded := encoded + [Symbol(value)];
    }
    assert Groups(raw)[..LENGTH] == Groups(raw);
  }

  lemma {:induction false} TextMore(values: seq<nat>, v: nat)
    ensures Text(values + [v]) == Text(values) + [Symbol(v)]
    decreases |values|
  {
    if values != [] {
      assert (values + [v])[1..] == values[1..] + [v];
      TextMore(values[1..], v);
    }
  }

  /** The output bits once the first bits of the text have been put in. */
  function Settled(bits: seq<nat>): seq<nat>
    requires |bits| <= 130
  {
    if |bits| <= 2 then Repeat(0, 128) else bits[2..] + Repeat(0, 130 - |bits|)
  }

  lemma SettledMore(bits: seq<nat>, b: nat)
    requires |bits| < 130
    ensures |bits| < 2 ==> Settled(bits + [b]) == Settled(bits)
    ensures |bits| >= 2 ==> |Settled(bits)| == 128 && Settled(bits)[|bits| - 2] == 0
    ensures |bits| >= 2 ==> Settled(bits)[|bits| - 2 := b] == Settled(bits + [b])
  {
  }

  method PutBit(raw: seq<nat>, bit: bool, encodedBit: nat, ghost bits: seq<nat>) returns (r: seq<nat>)
    requires Raw(raw) && encodedBit == |bits| < 130 && Flat(raw, 8) == Settled(bits)
    ensures Raw(r) && Flat(r, 8) == Settled(bits + [if bit then 1 else 0])
  {
    r := raw;
    SettledMore(bits, if bit then 1 else 0);
    if encodedBit < 2 || !bit {
      if encodedBit >= 2 { SettledZero(bits); }
      return;
    }
    r := SetBit(raw, encodedBit - 2);
  }

  lemma SettledZero(bits: seq<nat>)
    requires 2 <= |bits| < 130
    ensures Settled(bits + [0]) == Settled(bits)
  {
    SettledMore(bits, 0);
    assert Settled(bits)[|bits| - 2 := 0] == Settled(bits);
  }

  /** A bit that is still clear. */
  method SetBit(raw: seq<nat>, at: nat) returns (r: seq<nat>)
    requires Raw(raw) && at < |Flat(raw, 8)| == 128 && Flat(raw, 8)[at] == 0
    ensures Raw(r) && Flat(r, 8) == Flat(raw, 8)[at := 1]
  {
    var k, m := at / 8, at % 8;
    Powers();
    TimesIs(k, 8);
    SetGroupBit(raw, 8, k, m, at);
    r := raw[k := raw[k] + Pow2(7 - m)];
  }

  lemma CharBit(decoded: nat, m: nat, w: nat)
    requires m < w
    ensures Bits(decoded, w)[m] == if (decoded / Pow2(w - 1 - m)) % 2 == 1 then 1 else 0
  {
    BitAt(decoded, w, m);
  }

  lemma PrefixMore(bits: seq<nat>, all: seq<nat>, m: nat, b: nat)
    requires m < |all| && all[m] == b
    ensures bits + all[..m] + [b] == bits + all[..m + 1]
  {
  }

  method PutChar(raw: seq<nat>, decoded: nat, charIndex: nat, ghost bits: seq<nat>) returns (r: seq<nat>)
    requires Raw(raw) && charIndex < LENGTH && |bits| == 5 * charIndex && Flat(raw, 8) == Settled(bits)
    ensures Raw(r) && Flat(r, 8) == Settled(bits + Bits(decoded, 5))
  {
    r := PutBits(raw, decoded, 5, 5 * charIndex, bits);
  }

  method PutBits(raw: seq<nat>, decoded: nat, w: nat, from: nat, ghost bits: seq<nat>) returns (r: seq<nat>)
    requires Raw(raw) && |bits| == from && from + w <= 130 && Flat(raw, 8) == Settled(bits)
    ensures Raw(r) && Flat(r, 8) == Settled(bits + Bits(decoded, w))
  {
    r := raw;
    ghost var all := Bits(decoded, w);
    assert bits + all[..0] == bits;
    for bitOffset := 0 to w
      invariant Raw(r) && Flat(r, 8) == Settled(bits + all[..bitOffset])
    {
      CharBit(decoded, bitOffset, w);
      var bit := (decoded / Pow2(w - 1 - bitOffset)) % 2 == 1;
      r := PutBit(r, bit, from + bitOffset, bits + all[..bitOffset]);
      PrefixMore(bits, all, bitOffset, if bit then 1 else 0);
    }
    assert all[..w] == all;
  }

  lemma {:induction false} ValueAt(text: seq<nat>, i: nat)
    requires i < |text| && Values(text).Some?
    ensures i < |Values(text).value| && SymbolValue(text[i]) == Some(Values(text).value[i])
    decreases i
  {
    if i > 0 { ValueAt(text[1..], i - 1); }
  }

  lemma {:induction false} ValuesMore(text: seq<nat>, c: nat)
    ensures Values(text).Some? && SymbolValue(c).Some? ==>
            Values(text + [c]) == Some(Values(text).value + [SymbolValue(c).value])
    decreases |text|
  {
    if text == [] {
      assert text + [c] == [c] && [c][1..] == [] && Values([]) == Some([]);
      if SymbolValue(c).Some? {
        var v := SymbolValue(c).value;
        assert [v] + [] == [v] == [] + [v];
      }
    } else {
      assert (text + [c])[1..] == text[1..] + [c];
      ValuesMore(text[1..], c);
      if Values(text).Some? && SymbolValue(c).Some? {
        var first, rest := SymbolValue(text[0]).value, Values(text[1..]).value;
        assert [first] + (rest + [SymbolValue(c).value]) == [first] + rest + [SymbolValue(c).value];
      }
    }
  }

  /** The values of the first `i` characters. */
  ghost predicate Read(text: seq<nat>, i: nat, values: seq<nat>) {
    i <= |text| && Values(text[..i]) == Some(values) && |values| == i && (i > 0 ==> values[0] <= 7)
  }

  lemma ReadMore(text: seq<nat>, i: nat, values: seq<nat>, v: nat)
    requires Read(text, i, values) && i < |text| && SymbolValue(text[i]) == Some(v) && (i == 0 ==> v <= 7)
    ensures Read(text, i + 1, values + [v])
  {
    ValuesMore(text[..i], text[i]);
    assert text[..i + 1] == text[..i] + [text[i]];
  }

  lemma ReadAll(text: seq<nat>, values: seq<nat>, raw: seq<nat>)
    requires |text| == LENGTH && Read(text, LENGTH, values) && Raw(raw)
    requires |Flat(values, 5)| <= 130 && Flat(raw, 8) == Settled(Flat(values, 5))
    ensures Decoded(text) == Some(raw)
  {
    Sizes();
    assert text[..LENGTH] == text;
    Powers();
    GroupedFlat(raw, 8);
    assert Flat(values, 5)[2..] + Repeat(0, 0) == Flat(values, 5)[2..];
  }

  lemma Rejected(text: seq<nat>, i: nat)
    requires |text| == LENGTH && i < LENGTH
    requires SymbolValue(text[i]).None? || (i == 0 && SymbolValue(text[i]).value > 7)
    ensures Decoded(text).None?
  {
    if Values(text).Some? { ValueAt(text, i); }
  }

  /** Accepts exactly the texts that are encodings, and inverts the encoding. */
  method DecodeStreamID(text: seq<nat>) returns (r: Option<seq<nat>>)
    ensures r == Decoded(text)
  {
    if |text| != LENGTH { return None; }
    var raw := Repeat(0, BYTES);
    ghost var values: seq<nat> := [];
    ZerosFlat(BYTES);
    for charIndex := 0 to LENGTH
      invariant Read(text, charIndex, values)
      invariant Raw(raw) && |Flat(values, 5)| == 5 * charIndex && Flat(raw, 8) == Settled(Flat(values, 5))
    {
      var decoded := SymbolValue(text[charIndex]);
      if decoded.None? || (charIndex == 0 && decoded.value > 7) {
        Rejected(text, charIndex);
        return None;
      }
      var next := PutChar(raw, decoded.value, charIndex, Flat(values, 5));
      FlatMore(values, decoded.value, 5);
      ReadMore(text, charIndex, values, decoded.value);
      raw, values := next, values + [decoded.value];
    }
    ReadAll(text, values, raw);
    r := Some(raw);
  }

  lemma {:induction false} ZerosFlat(n: nat)
    ensures Flat(Repeat(0, n), 8) == Repeat(0, 8 * n)
    decreases n
  {
    if n > 0 {
      ZerosFlat(n - 1);
      assert Bits(0, 8) == Repeat(0, 8) by { ZeroBits(8); }
      assert Repeat(0, n)[1..] == Repeat(0, n - 1);
    }
  }

  lemma {:induction false} ZeroBits(w: nat)
    ensures Bits(0, w) == Repeat(0, w)
    decreases w
  {
    if w > 0 { ZeroBits(w - 1); }
  }

  // The generator.

  /** The next larger sequence of bytes, unless all are 255. */
  function Successor(a: seq<nat>): (b: Option<seq<nat>>)
    ensures b.Some? ==> |b.value| == |a|
  {
    if a == [] then None
    else
      var n := |a| - 1;
      if a[n] < 255 then Some(a[..n] + [a[n] + 1])
      else
        var carried := Successor(a[..n]);
        if carried.None? then None else Some(carried.value + [0])
  }

  lemma {:induction false} SuccessorLarger(a: seq<nat>)
    requires AllBelow(a, 256) && Successor(a).Some?
    ensures Less(a, Successor(a).value) && AllBelow(Successor(a).value, 256)
    decreases |a|
  {
    var n := |a| - 1;
    assert a == a[..n] + [a[n]];
    if a[n] < 255 {
      LessConcat(a[..n], a[..n], [a[n]], [a[n] + 1]);
    } else {
      SuccessorLarger(a[..n]);
      LessConcat(a[..n], Successor(a[..n]).value, [a[n]], [0]);
    }
  }

  function Repeat(v: nat, n: nat): (s: seq<nat>)
    ensures |s| == n && forall i | 0 <= i < n :: s[i] == v
  {
    if n == 0 then [] else [v] + Repeat(v, n - 1)
  }

  lemma RepeatLast(a: seq<nat>, v: nat, n: nat)
    ensures a + Repeat(v, n) + [v] == a + Repeat(v, n + 1)
  {
  }

  lemma SuccessorFull(a: seq<nat>)
    ensures Successor(a + [255]) == if Successor(a).None? then None else Some(Successor(a).value + [0])
  {
    assert (a + [255])[..|a|] == a;
  }

  lemma {:induction false} Carry(a: seq<nat>, n: nat)
    ensures Successor(a + Repeat(255, n)) ==
            if Successor(a).None? then None else Some(Successor(a).value + Repeat(0, n))
    decreases n
  {
    if n == 0 {
      assert a + Repeat(255, 0) == a;
      assert Successor(a).Some? ==> Successor(a).value + Repeat(0, 0) == Successor(a).value;
    } else {
      var x := a + Repeat(255, n - 1);
      RepeatLast(a, 255, n - 1);
      Carry(a, n - 1);
      SuccessorFull(x);
      if Successor(a).Some? { RepeatLast(Successor(a).value, 0, n - 1); }
    }
  }

  /** From `index` on, bytes of 255 have become 0; the rest is as before. */
  ghost predicate Carried(before: seq<nat>, now: seq<nat>, index: nat) {
    && index <= |before|
    && before == before[..index] + Repeat(255, |before| - index)
    && now == before[..index] + Repeat(0, |before| - index)
  }

  lemma CarriedAt(before: seq<nat>, now: seq<nat>, index: nat)
    requires index < |before| && Carried(before, now, index + 1)
    ensures |now| == |before| && now[index] == before[index] && before[..index + 1] == before[..index] + [before[index]]
  {
  }

  lemma RepeatFirst(a: seq<nat>, v: nat, n: nat)
    ensures a + [v] + Repeat(v, n) == a + Repeat(v, n + 1)
  {
  }

  lemma CarriedMore(before: seq<nat>, now: seq<nat>, index: nat)
    requires index < |before| && Carried(before, now, index + 1) && before[index] == 255
    ensures Carried(before, now[index := 0], index)
  {
    CarriedAt(before, now, index);
    var a, n := before[..index], |before| - index - 1;
    RepeatFirst(a, 255, n);
    RepeatFirst(a, 0, n);
    ChangeAt(a, 255, Repeat(0, n), 0);
  }

  lemma CarriedDone(before: seq<nat>, now: seq<nat>, index: nat)
    requires index < |before| && Carried(before, now, index + 1) && before[index] < 255
    ensures Successor(before) == Some(now[index := before[index] + 1])
  {
    CarriedAt(before, now, index);
    var a, b, n := before[..index], before[index], |before| - index - 1;
    Carry(a + [b], n);
    SuccessorLast(a, b);
    ChangeAt(a, b, Repeat(0, n), b + 1);
  }

  lemma SuccessorLast(a: seq<nat>, b: nat)
    requires b < 255
    ensures Successor(a + [b]) == Some(a + [b + 1])
  {
    assert (a + [b])[..|a|] == a;
  }

  lemma CarriedAll(before: seq<nat>, now: seq<nat>)
    requires Carried(before, now, 0)
    ensures Successor(before).None?
  {
    Carry([], |before|);
    assert before[..0] == [] && before == [] + Repeat(255, |before|);
  }

  /** Counts up in place; reports whether there was a next value. */
  method IncrementEntropy(entropy: array<nat>) returns (ok: bool)
    requires AllBelow(entropy[..], 256)
    modifies entropy
    ensures ok <==> Successor(old(entropy[..])).Some?
    ensures ok ==> entropy[..] == Successor(old(entropy[..])).value
  {
    ghost var before := entropy[..];
    var index := entropy.Length;
    while index > 0
      invariant 0 <= index <= entropy.Length && Carried(before, entropy[..], index)
    {
      index := index - 1;
      ghost var now := entropy[..];
      CarriedAt(before, now, index);
      if before[index] == 255 { CarriedMore(before, now, index); } else { CarriedDone(before, now, index); }
      entropy[index] := (entropy[index] + 1) % 256;
      assert entropy[..] == now[index := (before[index] + 1) % 256];
      if entropy[index] != 0 { return true; }
    }
    CarriedAll(before, entropy[..]);
    return false;
  }

  /** `n` in `w` bytes, highest first. */
  function Octets(n: nat, w: nat): (s: seq<nat>)
    ensures |s| == w && AllBelow(s, 256)
  {
    if w == 0 then [] else Octets(n / 256, w - 1) + [n % 256]
  }

  function Pow256(w: nat): nat { if w == 0 then 1 else 256 * Pow256(w - 1) }

  lemma {:induction false} OctetsOrder(a: nat, b: nat, w: nat)
    requires a < b < Pow256(w)
    ensures Less(Octets(a, w), Octets(b, w))
    decreases w
  {
    if w > 0 {
      LessConcat(Octets(a / 256, w - 1), Octets(b / 256, w - 1), [a % 256], [b % 256]);
      if a / 256 < b / 256 { OctetsOrder(a / 256, b / 256, w - 1); }
    }
  }

  method TimeBytes(milliseconds: nat) returns (bytes: seq<nat>)
    ensures bytes == Octets(milliseconds, TIME_BYTES)
  {
    bytes := [];
    var rest := milliseconds;
    for index := TIME_BYTES downto 0
      invariant Octets(milliseconds, TIME_BYTES) == Octets(rest, index) + bytes
    {
      assert Octets(rest, index + 1) + bytes == Octets(rest / 256, index) + ([rest % 256] + bytes);
      bytes := [rest % 256] + bytes;
      rest := rest / 256;
    }
  }

  lemma MaxTime()
    ensures Pow256(TIME_BYTES) == MAX_TIME + 1
  {
    assert Pow256(2) == 256 * Pow256(1) && Pow256(1) == 256;
    assert Pow256(4) == 256 * Pow256(3) && Pow256(3) == 256 * Pow256(2);
    assert Pow256(6) == 256 * Pow256(5) && Pow256(5) == 256 * Pow256(4);
  }

  /** The entropy is copied, so that a failed increment leaves the original alone. */
  method Incremented(entropy: seq<nat>) returns (next: Option<seq<nat>>)
    requires |entropy| == ENTROPY && AllBelow(entropy, 256)
    ensures next == Successor(entropy)
  {
    var scratch := new nat[ENTROPY](i requires 0 <= i < |entropy| => entropy[i]);
    assert scratch[..] == entropy;
    var ok := IncrementEntropy(scratch);
    next := if ok then Some(scratch[..]) else None;
  }

  /** The time and entropy of an identifier. */
  datatype Stamp = Stamp(millis: nat, entropy: seq<nat>)

  predicate Entropic(entropy: seq<nat>) { |entropy| == ENTROPY && AllBelow(entropy, 256) }

  predicate Sound(t: Stamp) { t.millis <= MAX_TIME && Entropic(t.entropy) }

  function RawOf(t: Stamp): (raw: seq<nat>)
    requires Sound(t)
    ensures Raw(raw)
  {
    Octets(t.millis, TIME_BYTES) + t.entropy
  }

  /** The text of an identifier. */
  function Canonical(t: Stamp): (text: seq<nat>)
    requires Sound(t)
    ensures |text| == LENGTH
  {
    Encoded(RawOf(t))
  }

  /** The next stamp: new entropy for a later time, else the same time with the
      entropy counted up. There is none for a time out of range, without
      entropy, or when the entropy of one millisecond is used up. */
  function Issued(last: Option<Stamp>, now: int, entropy: Option<seq<nat>>): Option<Stamp> {
    if now < 0 || now > MAX_TIME then None
    else if last.None? || now > last.value.millis then
      if entropy.None? then None else Some(Stamp(now, entropy.value))
    else
      var next := Successor(last.value.entropy);
      if next.None? then None else Some(Stamp(last.value.millis, next.value))
  }

  lemma IssuedSound(last: Option<Stamp>, now: int, entropy: Option<seq<nat>>)
    requires (last.Some? ==> Sound(last.value)) && (entropy.Some? ==> Entropic(entropy.value))
    ensures Issued(last, now, entropy).Some? ==> Sound(Issued(last, now, entropy).value)
  {
    if last.Some? && Successor(last.value.entropy).Some? { SuccessorLarger(last.value.entropy); }
  }

  /** Every stamp sorts after the one before it, whatever the clock says. */
  lemma IssuedLater(last: Stamp, now: int, entropy: Option<seq<nat>>)
    requires Sound(last) && (entropy.Some? ==> Entropic(entropy.value)) && Issued(Some(last), now, entropy).Some?
    ensures var next := Issued(Some(last), now, entropy).value;
      Sound(next) && Less(Canonical(last), Canonical(next))
  {
    IssuedSound(Some(last), now, entropy);
    var next := Issued(Some(last), now, entropy).value;
    MaxTime();
    if now > last.millis {
      OctetsOrder(last.millis, next.millis, TIME_BYTES);
    } else {
      SuccessorLarger(last.entropy);
    }
    LessConcat(Octets(last.millis, TIME_BYTES), Octets(next.millis, TIME_BYTES), last.entropy, next.entropy);
    EncodedOrder(RawOf(last), RawOf(next));
  }

  class IDGenerator {
    var initialized: bool
    var lastMillis: nat
    var lastEntropy: seq<nat>

    ghost function View(): Option<Stamp>
      reads this
    {
      if initialized then Some(Stamp(lastMillis, lastEntropy)) else None
    }

    ghost predicate Valid()
      reads this
    {
      View().Some? ==> Sound(View().value)
    }

    constructor ()
      ensures Valid() && View() == None
    {
      initialized, lastMillis, lastEntropy := false, 0, [];
    }

    /** The next identifier, larger than the one before whatever the clock says.
        `fresh` is what the entropy source yields, if it yields anything. A
        failed call changes nothing. */
    method New(now: int, fresh': Option<seq<nat>>) returns (id: Option<seq<nat>>)
      requires Valid() && (fresh'.Some? ==> Entropic(fresh'.value))
      modifies this
      ensures Valid()
      ensures id.Some? <==> Issued(old(View()), now, fresh').Some?
      ensures id.Some? ==> View() == Issued(old(View()), now, fresh') && id.value == Canonical(View().value)
      ensures id.None? ==> View() == old(View())
      ensures id.Some? && old(View()).Some? ==> Less(Canonical(old(View()).value), id.value)
    {
      IssuedSound(View(), now, fresh');
      if initialized && Issued(View(), now, fresh').Some? { IssuedLater(View().value, now, fresh'); }
      if now < 0 || now > MAX_TIME { return None; }
      var milliseconds: nat := now;
      var entropy;
      if !initialized || milliseconds > lastMillis {
        if fresh'.None? { return None; }
        entropy := fresh'.value;
      } else {
        milliseconds := lastMillis;
        var next := Incremented(lastEntropy);
        if next.None? { return None; }
        entropy := next.value;
      }
      initialized, lastMillis, lastEntropy := true, milliseconds, entropy;
      var bytes := TimeBytes(milliseconds);
      var encoded := EncodeULID(bytes + entropy);
      id := Some(encoded);
    }
  }

  /** What the entropy source yields at each reading of the clock. */
  predicate Readings(clock: seq<int>, source: seq<Option<seq<nat>>>) {
    |source| == |clock| && forall i | 0 <= i < |source| && source[i].Some? :: Entropic(source[i].value)
  }

  /** The stamp of the last identifier issued by the first `k` calls. */
  function After(clock: seq<int>, source: seq<Option<seq<nat>>>, k: nat): (last: Option<Stamp>)
    requires Readings(clock, source) && k <= |clock|
    ensures last.Some? ==> Sound(last.value)
  {
    if k == 0 then None
    else
      var before := After(clock, source, k - 1);
      IssuedSound(before, clock[k - 1], source[k - 1]);
      var next := Issued(before, clock[k - 1], source[k - 1]);
      if next.Some? then next else before
  }

  /** The identifier that call `k` issues, if it issues one. */
  function Identifier(clock: seq<int>, source: seq<Option<seq<nat>>>, k: nat): (id: Option<seq<nat>>)
    requires Readings(clock, source) && k < |clock|
    ensures id.Some? ==> |id.value| == LENGTH
  {
    var last := After(clock, source, k);
    IssuedSound(last, clock[k], source[k]);
    var next := Issued(last, clock[k], source[k]);
    if next.Some? then Some(Canonical(next.value)) else None
  }

  /** The last identifier is this one or sorts after it. */
  predicate Reached(last: Option<Stamp>, text: seq<nat>) {
    && last.Some? && Sound(last.value) && |text| == LENGTH
    && (text == Canonical(last.value) || Less(text, Canonical(last.value)))
  }

  lemma ReachedMore(last: Option<Stamp>, text: seq<nat>, now: int, entropy: Option<seq<nat>>)
    requires Reached(last, text) && (entropy.Some? ==> Entropic(entropy.value)) && Issued(last, now, entropy).Some?
    ensures var next := Issued(last, now, entropy).value; Sound(next) && Less(text, Canonical(next))
  {
    IssuedLater(last.value, now, entropy);
    var next := Issued(last, now, entropy).value;
    if text != Canonical(last.value) { LessTransitive(text, Canonical(last.value), Canonical(next)); }
  }

  lemma {:induction false} StillReached(clock: seq<int>, source: seq<Option<seq<nat>>>, i: nat, j: nat)
    requires Readings(clock, source) && i < j <= |clock| && Identifier(clock, source, i).Some?
    ensures Reached(After(clock, source, j), Identifier(clock, source, i).value)
    decreases j
  {
    if i + 1 < j {
      StillReached(clock, source, i, j - 1);
      var last := After(clock, source, j - 1);
      if Issued(last, clock[j - 1], source[j - 1]).Some? {
        ReachedMore(last, Identifier(clock, source, i).value, clock[j - 1], source[j - 1]);
      }
    }
  }

  /** Over any clock readings, an identifier is larger than every one before it. */
  lemma IdentifiersIncrease(clock: seq<int>, source: seq<Option<seq<nat>>>, i: nat, j: nat)
    requires Readings(clock, source) && i < j < |clock|
    requires Identifier(clock, source, i).Some? && Identifier(clock, source, j).Some?
    ensures Less(Identifier(clock, source, i).value, Identifier(clock, source, j).value)
  {
    StillReached(clock, source, i, j);
    ReachedMore(After(clock, source, j), Identifier(clock, source, i).value, clock[j], source[j]);
  }

  /** Any run of a generator: every call returns what the sequence of clock
      readings calls for, and the identifiers among the results increase. */
  method GenerateAll(clock: seq<int>, source: seq<Option<seq<nat>>>) returns (ids: seq<Option<seq<nat>>>)
    requires Readings(clock, source)
    ensures |ids| == |clock| && forall k | 0 <= k < |ids| :: ids[k] == Identifier(clock, source, k)
    ensures forall i, j | 0 <= i < j < |ids| && ids[i].Some? && ids[j].Some? ::
              |ids[i].value| == |ids[j].value| && Less(ids[i].value, ids[j].value)
  {
    ids := [];
    var g := new IDGenerator();
    for k := 0 to |clock|
      invariant |ids| == k && g.Valid() && fresh(g) && g.View() == After(clock, source, k)
      invariant forall i | 0 <= i < k :: ids[i] == Identifier(clock, source, i)
    {
      var id := g.New(clock[k], source[k]);
      ids := ids + [id];
    }
    forall i, j | 0 <= i < j < |ids| && ids[i].Some? && ids[j].Some?
      ensures |ids[i].value| == |ids[j].value| && Less(ids[i].value, ids[j].value)
    {
      IdentifiersIncrease(clock, source, i, j);
    }
  }
}
