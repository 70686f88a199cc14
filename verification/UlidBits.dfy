/** Fixed-width groups of bits and the lexicographic order on them. */
module UlidBits {
  import opened Sequences

  predicate AllBelow(s: seq<nat>, bound: nat) { forall i | 0 <= i < |s| :: s[i] < bound }

  function Pow2(n: nat): (p: nat)
    ensures p > 0
  {
    if n == 0 then 1 else 2 * Pow2(n - 1)
  }

  /** The lowest `w` bits of `n`, highest first. */
  function Bits(n: nat, w: nat): (bits: seq<nat>)
    ensures |bits| == w
  {
    if w == 0 then [] else Bits(n / 2, w - 1) + [n % 2]
  }

  function FromBits(bits: seq<nat>): nat {
    if bits == [] then 0 else 2 * FromBits(bits[..|bits| - 1]) + bits[|bits| - 1]
  }

  lemma {:induction false} BitsBelow(n: nat, w: nat)
    ensures AllBelow(Bits(n, w), 2)
    decreases w
  {
    if w > 0 { BitsBelow(n / 2, w - 1); }
  }

  lemma {:induction false} BitsInverse(n: nat, w: nat)
    ensures FromBits(Bits(n, w)) < Pow2(w) && (n < Pow2(w) ==> FromBits(Bits(n, w)) == n)
    decreases w
  {
    if w > 0 {
      BitsInverse(n / 2, w - 1);
      assert Bits(n, w)[..w - 1] == Bits(n / 2, w - 1);
    }
  }

  lemma {:induction false} FromBitsInverse(bits: seq<nat>)
    requires AllBelow(bits, 2)
    ensures FromBits(bits) < Pow2(|bits|) && Bits(FromBits(bits), |bits|) == bits
    decreases |bits|
  {
    if bits != [] { FromBitsInverse(bits[..|bits| - 1]); }
  }

  /** Bit `m` of `n`, as a shift and a mask find it. */
  lemma {:induction false} BitAt(n: nat, w: nat, m: nat)
    requires m < w
    ensures Bits(n, w)[m] == (n / Pow2(w - 1 - m)) % 2
    decreases w
  {
    if m < w - 1 {
      BitAt(n / 2, w - 1, m);
      HalfDiv(n, Pow2(w - 2 - m));
    }
  }

  lemma HalfDiv(n: nat, p: nat)
    requires p > 0
    ensures (n / 2) / p == n / (2 * p)
  {
    var q, r := (n / 2) / p, (n / 2) % p;
    assert n / 2 == q * p + r;
    assert n == 2 * (q * p + r) + n % 2;
    assert n == q * (2 * p) + (2 * r + n % 2) && 2 * r + n % 2 < 2 * p;
    Quotient(n, 2 * p, q, 2 * r + n % 2);
  }

  lemma Quotient(n: nat, d: nat, q: nat, r: nat)
    requires d > 0 && n == q * d + r && r < d
    ensures n / d == q
  {
    var x, y := n / d, n % d;
    assert n == x * d + y;
    assert x < q ==> (x + 1) * d <= q * d;
    assert x > q ==> (q + 1) * d <= x * d;
  }

  lemma HalfMore(n: nat, p: nat)
    ensures (n + 2 * p) / 2 == n / 2 + p && (n + 2 * p) % 2 == n % 2
  {
  }

  lemma UpdateFirst(bits: seq<nat>, m: nat, b: nat)
    requires m < |bits|
    ensures (bits + [b])[m := 1] == bits[m := 1] + [b]
  {
  }

  lemma UpdateLast(bits: seq<nat>, b: nat)
    ensures (bits + [b])[|bits| := 1] == bits + [1]
  {
  }

  /** Setting a clear bit. */
  lemma {:induction false} BitSet(n: nat, w: nat, m: nat)
    requires m < w && Bits(n, w)[m] == 0
    ensures Bits(n + Pow2(w - 1 - m), w) == Bits(n, w)[m := 1]
    ensures n < Pow2(w) ==> n + Pow2(w - 1 - m) < Pow2(w)
    decreases w
  {
    var bits := Bits(n / 2, w - 1);
    if m < w - 1 {
      var p := Pow2(w - 2 - m);
      assert Pow2(w - 1 - m) == 2 * p;
      HalfMore(n, p);
      BitSet(n / 2, w - 1, m);
      UpdateFirst(bits, m, n % 2);
      HalfBelow(n, p, Pow2(w - 1));
    } else {
      LastBitSet(n, w);
    }
  }

  lemma LastBitSet(n: nat, w: nat)
    requires w > 0 && Bits(n, w)[w - 1] == 0
    ensures Bits(n + Pow2(0), w) == Bits(n, w)[w - 1 := 1]
    ensures n < Pow2(w) ==> n + Pow2(0) < Pow2(w)
  {
    UpdateLast(Bits(n / 2, w - 1), n % 2);
  }

  lemma HalfBelow(n: nat, p: nat, top: nat)
    requires n / 2 < top ==> n / 2 + p < top
    ensures n < 2 * top ==> n + 2 * p < 2 * top
  {
  }

  /** The number of bits in `n` groups. */
  function Times(n: nat, w: nat): nat { if n == 0 then 0 else w + Times(n - 1, w) }

  lemma {:induction false} TimesIs(n: nat, w: nat)
    ensures Times(n, w) == w * n
    decreases n
  {
    if n > 0 { TimesIs(n - 1, w); }
  }

  /** The concatenated bits of all groups. */
  function Flat(groups: seq<nat>, w: nat): (bits: seq<nat>)
    ensures |bits| == Times(|groups|, w)
  {
    if groups == [] then [] else Bits(groups[0], w) + Flat(groups[1..], w)
  }

  lemma {:induction false} FlatBelow(groups: seq<nat>, w: nat)
    ensures AllBelow(Flat(groups, w), 2)
    decreases |groups|
  {
    if groups != [] {
      BitsBelow(groups[0], w);
      FlatBelow(groups[1..], w);
    }
  }

  /** `n` groups read off the bits. */
  function Grouped(bits: seq<nat>, w: nat, n: nat): (groups: seq<nat>)
    requires |bits| == Times(n, w)
    ensures |groups| == n
  {
    if n == 0 then [] else [FromBits(bits[..w])] + Grouped(bits[w..], w, n - 1)
  }

  lemma {:induction false} FlatGrouped(bits: seq<nat>, w: nat, n: nat)
    requires |bits| == Times(n, w) && AllBelow(bits, 2)
    ensures Flat(Grouped(bits, w, n), w) == bits && AllBelow(Grouped(bits, w, n), Pow2(w))
    decreases n
  {
    if n > 0 {
      var head, rest := FromBits(bits[..w]), Grouped(bits[w..], w, n - 1);
      FromBitsInverse(bits[..w]);
      FlatGrouped(bits[w..], w, n - 1);
      assert Grouped(bits, w, n) == [head] + rest && ([head] + rest)[1..] == rest;
      Rejoin(bits, w);
    }
  }

  lemma {:induction false} GroupedFlat(groups: seq<nat>, w: nat)
    requires AllBelow(groups, Pow2(w))
    ensures Grouped(Flat(groups, w), w, |groups|) == groups
    decreases |groups|
  {
    if groups != [] {
      var head, rest := Bits(groups[0], w), Flat(groups[1..], w);
      BitsInverse(groups[0], w);
      GroupedFlat(groups[1..], w);
      assert (head + rest)[..w] == head && (head + rest)[w..] == rest;
      assert groups == [groups[0]] + groups[1..];
    }
  }

  lemma {:induction false} FlatAt(groups: seq<nat>, w: nat, k: nat, m: nat)
    requires k < |groups| && m < w
    ensures Times(k, w) + m < |Flat(groups, w)| && Flat(groups, w)[Times(k, w) + m] == Bits(groups[k], w)[m]
    decreases k
  {
    if k > 0 { FlatAt(groups[1..], w, k - 1, m); }
  }

  lemma UpdateLeft(x: seq<nat>, y: seq<nat>, i: nat, b: nat)
    requires i < |x|
    ensures x[i := b] + y == (x + y)[i := b]
  {
  }

  lemma UpdateRight(x: seq<nat>, y: seq<nat>, i: nat, b: nat)
    requires i < |y|
    ensures x + y[i := b] == (x + y)[|x| + i := b]
  {
  }

  lemma {:induction false} FlatUpdate(groups: seq<nat>, w: nat, k: nat, m: nat, at: nat, b: nat, v: nat)
    requires k < |groups| && m < w && at == Times(k, w) + m && b < 2 && Bits(v, w) == Bits(groups[k], w)[m := b]
    ensures at < |Flat(groups, w)| && Flat(groups[k := v], w) == Flat(groups, w)[at := b]
    decreases k
  {
    FlatAt(groups, w, k, m);
    if k > 0 {
      assert groups[k := v][1..] == groups[1..][k - 1 := v];
      FlatUpdate(groups[1..], w, k - 1, m, at - w, b, v);
      UpdateRight(Bits(groups[0], w), Flat(groups[1..], w), at - w, b);
    } else {
      assert groups[0 := v][1..] == groups[1..];
      UpdateLeft(Bits(groups[0], w), Flat(groups[1..], w), m, b);
    }
  }

  /** Lexicographic order of sequences of equal length. */
  predicate Less(a: seq<nat>, b: seq<nat>)
    requires |a| == |b|
  {
    a != [] && (a[0] < b[0] || (a[0] == b[0] && Less(a[1..], b[1..])))
  }

  lemma {:induction false} LessConcat(a: seq<nat>, b: seq<nat>, c: seq<nat>, d: seq<nat>)
    requires |a| == |b| && |c| == |d|
    ensures Less(a + c, b + d) <==> Less(a, b) || (a == b && Less(c, d))
    decreases |a|
  {
    if a == [] {
      assert a + c == c && b + d == d;
    } else {
      assert (a + c)[1..] == a[1..] + c && (b + d)[1..] == b[1..] + d;
      LessConcat(a[1..], b[1..], c, d);
      assert a == b <==> a[0] == b[0] && a[1..] == b[1..] by {
        assert a == [a[0]] + a[1..] && b == [b[0]] + b[1..];
      }
    }
  }

  lemma {:induction false} LessTransitive(a: seq<nat>, b: seq<nat>, c: seq<nat>)
    requires |a| == |b| == |c| && Less(a, b) && Less(b, c)
    ensures Less(a, c)
    decreases |a|
  {
    if a[0] == b[0] == c[0] { LessTransitive(a[1..], b[1..], c[1..]); }
  }

  /** Numbers are ordered as their bits are. */
  lemma {:induction false} BitsOrder(a: nat, b: nat, w: nat)
    requires a < Pow2(w) && b < Pow2(w)
    ensures Less(Bits(a, w), Bits(b, w)) <==> a < b
    ensures Bits(a, w) == Bits(b, w) <==> a == b
    decreases w
  {
    if w > 0 {
      BitsOrder(a / 2, b / 2, w - 1);
      LessConcat(Bits(a / 2, w - 1), Bits(b / 2, w - 1), [a % 2], [b % 2]);
      BitsInverse(a, w);
      BitsInverse(b, w);
    }
  }

  /** So are groups of bits. */
  lemma {:induction false} FlatOrder(a: seq<nat>, b: seq<nat>, w: nat)
    requires |a| == |b| && AllBelow(a, Pow2(w)) && AllBelow(b, Pow2(w))
    ensures Less(Flat(a, w), Flat(b, w)) <==> Less(a, b)
    decreases |a|
  {
    if a != [] {
      FlatOrder(a[1..], b[1..], w);
      BitsOrder(a[0], b[0], w);
      LessConcat(Bits(a[0], w), Bits(b[0], w), Flat(a[1..], w), Flat(b[1..], w));
    }
  }

  lemma FromBitsMore(bits: seq<nat>, b: nat)
    ensures FromBits(bits + [b]) == 2 * FromBits(bits) + b
  {
    assert (bits + [b])[..|bits|] == bits;
  }

  /** The bits from which group `k` is read. */
  lemma {:induction false} GroupAt(bits: seq<nat>, w: nat, n: nat, k: nat, from: nat, slice: seq<nat>)
    requires |bits| == Times(n, w) && k < n && from == Times(k, w)
    requires from + w <= |bits| && slice == bits[from..from + w]
    ensures Grouped(bits, w, n)[k] == FromBits(slice)
    decreases n
  {
    if k == 0 {
      assert slice == bits[..w];
    } else {
      var rest := bits[w..];
      SliceOfDrop(bits, w, from - w, from);
      GroupAt(rest, w, n - 1, k - 1, from - w, slice);
    }
  }

  lemma SetGroupBit(groups: seq<nat>, w: nat, k: nat, m: nat, at: nat)
    requires k < |groups| && m < w && at == Times(k, w) + m && AllBelow(groups, Pow2(w))
    requires at < |Flat(groups, w)| && Flat(groups, w)[at] == 0
    ensures groups[k] + Pow2(w - 1 - m) < Pow2(w)
    ensures Flat(groups[k := groups[k] + Pow2(w - 1 - m)], w) == Flat(groups, w)[at := 1]
  {
    FlatAt(groups, w, k, m);
    BitSet(groups[k], w, m);
    FlatUpdate(groups, w, k, m, at, 1, groups[k] + Pow2(w - 1 - m));
  }

  lemma {:induction false} FlatMore(groups: seq<nat>, v: nat, w: nat)
    ensures Flat(groups + [v], w) == Flat(groups, w) + Bits(v, w)
    decreases |groups|
  {
    if groups == [] {
      assert [v][1..] == [];
    } else {
      assert (groups + [v])[1..] == groups[1..] + [v];
      FlatMore(groups[1..], v, w);
    }
  }
}
