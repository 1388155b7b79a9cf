/** Small facts about slices of strings, stated once so that proofs about
    texts built from pieces can name the step they take. */
module Slices {
  /** A slice inside the left part of a concatenation. */
  lemma SliceLeft(a: string, b: string, i: nat, j: nat)
    requires i <= j <= |a|
    ensures (a + b)[i..j] == a[i..j]
  {
  }

  /** A slice inside the right part of a concatenation. */
  lemma SliceRight(a: string, b: string, i: nat, j: nat)
    requires i <= j <= |b|
    ensures (a + b)[|a| + i..|a| + j] == b[i..j]
  {
  }

  /** A slice of a prefix is a slice of the whole. */
  lemma SliceOfPrefix(s: string, k: nat, a: nat, b: nat)
    requires a <= b <= k <= |s|
    ensures s[..k][a..b] == s[a..b]
  {
  }

  /** The tail of a prefix is a slice of the whole. */
  lemma TailOfPrefix(s: string, k: nat, a: nat)
    requires a <= k <= |s|
    ensures s[..k][a..] == s[a..k]
  {
  }

  /** A text is its three pieces cut at two points. */
  lemma ThreeCuts(s: string, i: nat, j: nat)
    requires i <= j <= |s|
    ensures s == s[..i] + s[i..j] + s[j..]
  {
  }

  /** A prefix of a tail is a slice of the whole. */
  lemma PrefixOfTail(s: string, i: nat, n: nat)
    requires i + n <= |s|
    ensures s[i..][..n] == s[i..i + n]
  {
  }

  /** The left part of a concatenation is its prefix. */
  lemma PrefixOfConcat(a: string, b: string)
    ensures (a + b)[..|a|] == a
  {
  }

  /** The right part of a concatenation is its tail. */
  lemma TailOfConcat(a: string, b: string)
    ensures (a + b)[|a|..] == b
  {
  }

  /** The middle part of a concatenation of three. */
  lemma MiddleOfConcat(a: string, b: string, c: string)
    ensures (a + b + c)[|a|..|a| + |b|] == b
  {
  }

  /** Four pieces regrouped: around the second, and with the first
      character of the second split off. */
  lemma RegroupFour(a: string, b: string, c: string, d: string)
    requires b != []
    ensures a + b + c + d == a + (b + c + d)
    ensures a + b + c + d == (a + [b[0]]) + b[1..] + (c + d)
  {
    assert b == [b[0]] + b[1..];
  }

  /** An empty second piece can be dropped. */
  lemma DropEmpty(a: string, b: string, c: string, d: string)
    requires b == []
    ensures a + b + c + d == a + c + d
  {
  }

  /** The first and last of three pieces. */
  lemma EndsOfThree(a: string, b: string, c: string)
    ensures (a + b + c)[..|a|] == a && (a + b + c)[|a| + |b|..] == c
  {
    PrefixOfConcat(a, b + c);
    assert a + b + c == a + (b + c);
    TailOfConcat(a + b, c);
  }

  /** The middle piece of three without its first character. */
  lemma InnerOfMiddle(a: string, b: string, c: string)
    requires b != []
    ensures (a + b + c)[|a| + 1..|a| + |b|] == b[1..]
  {
    MiddleOfConcat(a, b, c);
  }

  lemma AppendEmpty(a: string)
    ensures a + [] == a
  {
  }
}
