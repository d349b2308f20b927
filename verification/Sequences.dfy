/** Shapes of sequences, kept apart from what the sequences are about. */
module Sequences {
  lemma ConsParts<T>(x: T, s: seq<T>, k: nat)
    requires k <= |s|
    ensures ([x] + s)[1..] == s
    ensures ([x] + s)[..k + 1] == [x] + s[..k]
    ensures ([x] + s)[k + 1..] == s[k..]
  {
  }

  lemma AppendParts<T>(p: seq<T>, s: seq<T>, k: nat)
    requires k <= |s|
    ensures (p + s)[..|p| + k] == p + s[..k]
    ensures (p + s)[|p| + k..] == s[k..]
  {
  }

  lemma HeadAndTail<T>(s: seq<T>)
    requires s != []
    ensures s == [s[0]] + s[1..]
  {
  }

  lemma Associative<T>(a: seq<T>, b: seq<T>, c: seq<T>)
    ensures (a + b) + c == a + (b + c)
  {
  }

  /** Two neighbours between what comes before and what comes after them. */
  lemma Neighbours<T>(pre: seq<T>, x: T, y: T, post: seq<T>)
    ensures var s := pre + [x] + ([y] + post);
            && s[|pre|] == x && s[|pre| + 1] == y
            && s[..|pre|] == pre && s[|pre| + 2..] == post
  {
  }
}
