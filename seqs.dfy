/** Small facts about sequence concatenation and slicing, used to keep the socket proofs cheap. */
module Seqs {
  lemma AppendAssoc<T>(a: seq<T>, b: seq<T>, c: seq<T>)
    ensures (a + b) + c == a + (b + c)
  {
  }

  lemma SplitAt<T>(s: seq<T>, k: nat)
    requires k <= |s|
    ensures s == s[..k] + s[k..]
  {
  }

  lemma DropDrop<T>(s: seq<T>, a: nat, b: nat)
    requires a + b <= |s|
    ensures s[a..][b..] == s[a + b..]
  {
  }

  lemma DropSuffix<T>(s: seq<T>, c: nat, k: nat)
    requires c <= |s| && k <= |s| - c
    ensures s[c..][|s| - c - k..] == s[|s| - k..]
  {
  }

  lemma PrefixStep1<T>(s: seq<T>, k: nat)
    requires k + 1 <= |s|
    ensures s[..k + 1] == s[..k] + [s[k]]
  {
  }

  lemma PrefixStep2<T>(s: seq<T>, k: nat)
    requires k + 2 <= |s|
    ensures s[..k + 2] == s[..k] + [s[k], s[k + 1]]
  {
  }

  lemma AppendTwo<T>(a: seq<T>, p: seq<T>, x: T, y: T)
    ensures a + p + [x] + [y] == a + (p + [x, y])
  {
  }
}
