/**
 * Shape facts about sequences, stated once for any element type so that the
 * proofs about records use them instead of re-deriving sequence equality.
 */
module Seqs {

  /** A non-empty sequence is its front followed by its last element. */
  lemma Snoc<T>(s: seq<T>)
    requires s != []
    ensures s == s[..|s| - 1] + [s[|s| - 1]]
  {
  }

  /** Appending a non-empty tail is appending its front, then its last element. */
  lemma SnocSplit<T>(p: seq<T>, b: seq<T>)
    requires b != []
    ensures p + b == (p + b[..|b| - 1]) + [b[|b| - 1]]
  {
  }

  lemma AppendEmpty<T>(p: seq<T>)
    ensures p + [] == p
  {
  }

  /** Dropping the element just appended gives back the sequence. */
  lemma FrontOfSnoc<T>(s: seq<T>, x: T)
    ensures (s + [x])[..|s|] == s
  {
  }

  /** One more element of a prefix. */
  lemma PrefixStep<T>(s: seq<T>, i: nat)
    requires i < |s|
    ensures s[..i + 1] == s[..i] + [s[i]]
  {
  }

  /** Membership in a non-empty sequence, split at its last element. */
  lemma InFrontOrLast<T>(s: seq<T>, x: T)
    requires s != []
    ensures x in s <==> x in s[..|s| - 1] || x == s[|s| - 1]
  {
    if x in s && x != s[|s| - 1] {
      var i :| 0 <= i < |s| && s[i] == x;
      assert s[..|s| - 1][i] == x;
    }
  }

  /** An element found at two different indices occurs at least twice. */
  lemma TwoIndices<T>(s: seq<T>, i: nat, j: nat)
    requires i < j < |s| && s[i] == s[j]
    ensures multiset(s)[s[i]] >= 2
  {
    var x := s[i];
    assert s == s[..j] + s[j..];
    assert x in s[..j];
    assert x in s[j..];
    assert multiset(s) == multiset(s[..j]) + multiset(s[j..]);
  }

  /** An element of both halves occurs twice in their concatenation, at the returned indices. */
  lemma SharedElement<T>(p: seq<T>, q: seq<T>, x: T) returns (i: nat, j: nat)
    requires x in p && x in q
    ensures i < j < |p + q| && (p + q)[i] == x && (p + q)[j] == x
    ensures multiset(p + q)[x] >= 2
  {
    var k :| 0 <= k < |p| && p[k] == x;
    var l :| 0 <= l < |q| && q[l] == x;
    i, j := k, |p| + l;
    TwoIndices(p + q, i, j);
  }

  /** The front of a concatenation with a non-empty right part. */
  lemma AppendFront<T>(a: seq<T>, b: seq<T>)
    requires b != []
    ensures (a + b)[..|a + b| - 1] == a + b[..|b| - 1]
    ensures (a + b)[|a + b| - 1] == b[|b| - 1]
  {
  }

  /** One more element off the front of a suffix. */
  lemma SuffixStep<T>(s: seq<T>, i: nat)
    requires i < |s|
    ensures s[i..][0] == s[i] && s[i..][1..] == s[i + 1..]
  {
  }

  lemma FullPrefix<T>(s: seq<T>)
    ensures s[..|s|] == s
  {
  }

  /** A 20-element sequence cut at the separator positions of a timestamp. */
  lemma Cut20<T>(s: seq<T>)
    requires |s| == 20
    ensures s == s[0..4] + [s[4]] + s[5..7] + [s[7]] + s[8..10] + [s[10]] + s[11..13] + [s[13]]
                 + s[14..16] + [s[16]] + s[17..19] + [s[19]]
  {
  }

  lemma Cons<T>(s: seq<T>)
    requires s != []
    ensures s == [s[0]] + s[1..]
  {
  }
}
