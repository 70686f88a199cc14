/** UTF-8 as section 4 of RFC 3629 defines it, and the three questions that the
    Go library answers about a byte slice: how long is the rune at its head, is
    that rune whole, and is the slice valid. */
module Utf8 {

  type byte = b: int | 0 <= b < 256

  predicate Tail(b: byte) {
    0x80 <= b <= 0xBF
  }

  /** A byte that does not continue a rune (`utf8.RuneStart`). */
  predicate RuneStart(b: byte) {
    !Tail(b)
  }

  /** One character of the grammar: UTF8-1, UTF8-2, UTF8-3 or UTF8-4. */
  predicate IsRune(r: seq<byte>) {
    || (|r| == 1 && r[0] <= 0x7F)
    || (|r| == 2 && 0xC2 <= r[0] <= 0xDF && Tail(r[1]))
    || (|r| == 3 && r[0] == 0xE0 && 0xA0 <= r[1] <= 0xBF && Tail(r[2]))
    || (|r| == 3 && 0xE1 <= r[0] <= 0xEC && Tail(r[1]) && Tail(r[2]))
    || (|r| == 3 && r[0] == 0xED && 0x80 <= r[1] <= 0x9F && Tail(r[2]))
    || (|r| == 3 && 0xEE <= r[0] <= 0xEF && Tail(r[1]) && Tail(r[2]))
    || (|r| == 4 && r[0] == 0xF0 && 0x90 <= r[1] <= 0xBF && Tail(r[2]) && Tail(r[3]))
    || (|r| == 4 && 0xF1 <= r[0] <= 0xF3 && Tail(r[1]) && Tail(r[2]) && Tail(r[3]))
    || (|r| == 4 && r[0] == 0xF4 && 0x80 <= r[1] <= 0x8F && Tail(r[2]) && Tail(r[3]))
  }

  /** The number of bytes a lead byte announces; 0 for a byte that cannot lead. */
  function Width(lead: byte): nat {
    if lead < 0x80 then 1
    else if 0xC2 <= lead <= 0xDF then 2
    else if 0xE0 <= lead <= 0xEF then 3
    else if 0xF0 <= lead <= 0xF4 then 4
    else 0
  }

  /** The range the library accepts for the byte after `lead`. */
  predicate Second(lead: byte, b: byte) {
    (if lead == 0xE0 then 0xA0 else if lead == 0xF0 then 0x90 else 0x80) <= b
    <= (if lead == 0xED then 0x9F else if lead == 0xF4 then 0x8F else 0xBF)
  }

  predicate Coherent(p: seq<byte>) {
    && (|p| > 1 ==> Second(p[0], p[1]))
    && (|p| > 2 ==> Tail(p[2]))
    && (|p| > 3 ==> Tail(p[3]))
  }

  /** The size `utf8.DecodeRune` reports, with 0 standing for its error result. */
  function RuneSize(p: seq<byte>): (n: nat)
    ensures n <= |p|
    ensures n > 0 ==> IsRune(p[..n])
  {
    if p == [] then 0
    else
      var w := Width(p[0]);
      if 0 < w <= |p| && Coherent(p[..w]) then
        assert IsRune(p[..w]);
        w
      else 0
  }

  /** The decoder finds the rune at the head of a slice whenever there is one. */
  lemma RuneSizeFinds(p: seq<byte>, k: nat)
    requires k <= |p| && IsRune(p[..k])
    ensures RuneSize(p) == k
  {
    assert p[..k][0] == p[0];
  }

  lemma OneRune(r: seq<byte>)
    requires IsRune(r)
    ensures RuneSize(r) == |r| && Valid(r)
  {
    assert r[..|r|] == r;
    assert r[|r|..] == [];
  }

  lemma InnerTail(s: seq<byte>, i: nat)
    ensures 0 < i < RuneSize(s) ==> Tail(s[i])
  {
    if 0 < i < RuneSize(s) { assert s[..RuneSize(s)][i] == s[i]; }
  }

  /** `utf8.FullRune`. */
  predicate FullRune(p: seq<byte>) {
    p != [] && (|p| >= Width(p[0]) || !Coherent(p))
  }

  /** A slice without a full rune is a rune cut short. */
  lemma CutRune(p: seq<byte>) returns (t: seq<byte>)
    requires p != [] && !FullRune(p)
    ensures t != [] && IsRune(p + t)
  {
    var filler: byte := if p[0] == 0xE0 || p[0] == 0xF0 then 0xA0 else 0x80;
    var w := Width(p[0]);
    t := if |p| == 1 then [filler, 0x80, 0x80][..w - 1] else [0x80, 0x80, 0x80][..w - |p|];
  }

  /** A rune cut short has no full rune, and no rune is a proper prefix of another. */
  lemma RuneCut(r: seq<byte>, k: nat)
    requires IsRune(r) && 0 < k < |r|
    ensures !FullRune(r[..k]) && RuneSize(r[..k]) == 0
  {
  }

  /** A concatenation of runes (`utf8.Valid`). */
  predicate Valid(s: seq<byte>)
    decreases |s|
  {
    s == [] || (RuneSize(s) > 0 && Valid(s[RuneSize(s)..]))
  }

  function Join(parts: seq<seq<byte>>): seq<byte> {
    if parts == [] then [] else parts[0] + Join(parts[1..])
  }

  lemma ValidStarts(s: seq<byte>)
    requires Valid(s) && s != []
    ensures RuneStart(s[0])
  {
  }

  /** More bytes after a whole rune do not change it. */
  lemma RuneSizeStable(a: seq<byte>, b: seq<byte>)
    requires RuneSize(a) > 0
    ensures RuneSize(a + b) == RuneSize(a)
  {
    assert (a + b)[..RuneSize(a)] == a[..RuneSize(a)];
  }

  lemma {:induction false} ValidConcat(a: seq<byte>, b: seq<byte>)
    requires Valid(a)
    ensures Valid(a + b) <==> Valid(b)
    decreases |a|
  {
    if a == [] {
      assert a + b == b;
    } else {
      RuneSizeStable(a, b);
      var n := RuneSize(a);
      assert (a + b)[n..] == a[n..] + b;
      ValidConcat(a[n..], b);
    }
  }

  lemma {:induction false} ValidJoin(parts: seq<seq<byte>>)
    requires forall i | 0 <= i < |parts| :: Valid(parts[i])
    ensures Valid(Join(parts))
    decreases |parts|
  {
    if parts != [] {
      ValidJoin(parts[1..]);
      ValidConcat(parts[0], Join(parts[1..]));
    }
  }
}
