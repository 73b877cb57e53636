module Sequences {
  lemma {:induction false} Associate<T>(a: seq<T>, b: seq<T>, c: seq<T>)
    ensures a + (b + c) == a + b + c
  {
  }

  lemma {:induction false} CutApart<T>(a: seq<T>, b: seq<T>)
    ensures (a + b)[..|a|] == a && (a + b)[|a|..] == b
  {
  }

  lemma {:induction false} SliceOfRest<T>(s: seq<T>, at: nat, n: nat)
    requires at + n <= |s|
    ensures s[at..][..n] == s[at..at + n] && s[at..][n..] == s[at + n..]
  {
    forall k | 0 <= k < n
      ensures s[at..][..n][k] == s[at..at + n][k]
    {
    }
    forall k | 0 <= k < |s| - at - n
      ensures s[at..][n..][k] == s[at + n..][k]
    {
    }
  }

  lemma {:induction false} SliceOfPrefix<T>(s: seq<T>, n: nat, i: nat, j: nat)
    requires i <= j <= n <= |s|
    ensures s[..n][i..j] == s[i..j]
  {
    forall k | 0 <= k < j - i
      ensures s[..n][i..j][k] == s[i..j][k]
    {
    }
  }
}
