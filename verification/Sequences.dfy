/** Equalities of slices and concatenations that the proofs call by name. */
module Sequences {

  lemma Regroup<T>(a: seq<T>, b: seq<T>, c: seq<T>)
    ensures a + b + c == a + (b + c)
  {
  }

  lemma NothingAfter<T>(s: seq<T>)
    ensures s + [] == s
  {
  }

  lemma Rejoin<T>(s: seq<T>, i: nat)
    requires i <= |s|
    ensures s[..i] + s[i..] == s
  {
  }

  lemma TakeMore<T>(s: seq<T>, i: nat)
    requires i < |s|
    ensures s[..i + 1] == s[..i] + [s[i]]
  {
  }

  lemma TakeAfterFirst<T>(s: seq<T>, i: nat)
    requires 0 < i <= |s|
    ensures s[..i][1..] == s[1..][..i - 1]
  {
  }

  lemma DropTwice<T>(s: seq<T>, i: nat, j: nat, k: nat)
    requires k == i + j <= |s|
    ensures s[i..][j..] == s[k..]
  {
  }

  lemma ChangeAt<T>(a: seq<T>, b: T, c: seq<T>, v: T)
    ensures (a + [b] + c)[|a| := v] == a + [v] + c
  {
  }

  lemma SliceOfDrop<T>(s: seq<T>, w: nat, from: nat, to: nat)
    requires w + from <= w + to <= |s|
    ensures s[w..][from..to] == s[w + from..w + to]
  {
  }
}
