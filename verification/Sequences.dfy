/** Facts about taking sequences apart and putting them together, each stated once so that proofs about
    recursive functions can use it without the solver searching for it. */
module Sequences {

  lemma Halves<T>(s: seq<T>, n: nat)
    requires n <= |s|
    ensures s == s[..n] + s[n..]
  {
  }

  lemma Drops<T>(s: seq<T>, i: nat, n: nat)
    requires i + n <= |s|
    ensures s[i..][n..] == s[i + n..]
  {
  }

  lemma Regroup<T>(a: seq<T>, b: seq<T>, c: seq<T>)
    ensures a + (b + c) == a + b + c
  {
  }

  lemma RegroupFour<T>(a: seq<T>, b: seq<T>, c: seq<T>, d: seq<T>)
    ensures a + (b + (c + d)) == a + b + c + d
  {
    Regroup(b, c, d);
    Regroup(a, b + c, d);
    Regroup(a, b, c);
  }
}
