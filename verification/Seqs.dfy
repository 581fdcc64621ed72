// Laws of sequences that proofs cite by name, so that the solver need not
// search for them.
module Seqs {

  lemma Assoc<T>(a: seq<T>, b: seq<T>, c: seq<T>)
    ensures (a + b) + c == a + (b + c)
  {
  }

  lemma TailOfConcat<T>(a: seq<T>, b: seq<T>)
    requires a != []
    ensures (a + b)[1..] == a[1..] + b
    ensures (a + b)[0] == a[0]
  {
  }

  lemma PrefixOfConcat<T>(a: seq<T>, b: seq<T>)
    ensures (a + b)[..|a|] == a && (a + b)[|a|..] == b
  {
  }

  lemma OneMoreSame<T>(a: seq<T>, b: seq<T>, n: nat)
    requires n < |a| && n < |b| && a[..n] == b[..n] && a[n] == b[n]
    ensures a[..n + 1] == b[..n + 1]
  {
    assert forall k :: 0 <= k < n ==> a[k] == a[..n][k] && b[k] == b[..n][k];
  }

  lemma Split<T>(a: seq<T>, i: nat)
    requires i <= |a|
    ensures a == a[..i] + a[i..]
  {
  }

  lemma SliceOfConcat<T>(a: seq<T>, b: seq<T>, i: nat, j: nat, k: nat, l: nat)
    requires i <= k <= |a| && j <= l <= |b|
    requires (j == 0 || i == |a|) && (l == 0 || k == |a|)
    ensures (a + b)[i + j..k + l] == a[i..k] + b[j..l]
  {
  }

  // What is left of a prefix once a shorter prefix is taken off.
  lemma Remainder<T>(whole: seq<T>, i: nat, j: nat, rest: seq<T>)
    requires i <= |whole| && j <= |whole|
    requires whole[..j] == whole[..i] + rest
    ensures i <= j && rest == whole[i..j]
  {
    assert |whole[..j]| == j;
    PrefixOfConcat(whole[..i], rest);
  }

  lemma Regroup<T>(a: seq<T>, o: seq<T>, t: seq<T>, x: seq<T>, c: seq<T>)
    ensures a + (o + t + x) + c == (a + o) + t + (x + c)
  {
    Assoc(a, o + t + x, c);
    Assoc(o + t, x, c);
    Assoc(o, t, x + c);
    Assoc(a, o, t + (x + c));
    Assoc(a + o, t, x + c);
  }
}
