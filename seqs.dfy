/** Small facts about sequences that the proofs of the other modules call by name, so that the
    solver does not have to rediscover them inside large proof contexts. */
module Seqs {
  /** The last element of a non-empty list. */
  function Last<T>(xs: seq<T>): T
    requires xs != []
  {
    xs[|xs| - 1]
  }

  /** A non-empty list is its front followed by its last element. */
  lemma SplitLast<T>(xs: seq<T>)
    requires xs != []
    ensures xs == xs[..|xs| - 1] + [Last(xs)]
  {
  }

  /** A sequence is its three parts around two cut points. */
  lemma ThreeParts<T>(s: seq<T>, i: nat, j: nat)
    requires i <= j <= |s|
    ensures s == s[..i] + s[i..j] + s[j..]
  {
  }

  /** Putting `x` at position `j` adds it to the elements. */
  lemma InsertedMultiset<T>(r: seq<T>, j: nat, x: T)
    requires j <= |r|
    ensures multiset(r[..j] + [x] + r[j..]) == multiset(r) + multiset{x}
  {
    assert r == r[..j] + r[j..];
  }

  /** Appending to an empty list. */
  lemma JoinOne<T>(a: seq<T>)
    ensures [] + a == a
  {
  }

  /** Appending three lists, one after another, to an empty list. */
  lemma JoinThree<T>(a: seq<T>, b: seq<T>, c: seq<T>)
    ensures [] + a + b + c == a + b + c
  {
  }

  lemma AppendAssoc<T>(a: seq<T>, b: seq<T>, c: seq<T>)
    ensures a + b + c == a + (b + c)
  {
  }

  /** Moving the first element still to do onto the end of what is done. */
  lemma ShiftFirst<T>(done: seq<T>, x: T, rest: seq<T>, todo: seq<T>)
    requires [x] + rest == todo
    ensures done + todo == (done + [x]) + rest
  {
  }

  /** Overwriting the last element of a list. */
  lemma UpdateLast<T>(xs: seq<T>, x: T)
    requires xs != []
    ensures xs[|xs| - 1 := x] == xs[..|xs| - 1] + [x]
  {
  }

  /** Taking one more element of a list appends it. */
  lemma TakeOneMore<T>(xs: seq<T>, i: nat)
    requires i < |xs|
    ensures xs[..i + 1] == xs[..i] + [xs[i]]
  {
  }

  /** Replacing both parts of a concatenation by equal sequences. */
  lemma Rejoin<T>(whole: seq<T>, a: seq<T>, b: seq<T>, a': seq<T>, b': seq<T>)
    requires whole == a + b && a == a' && b == b'
    ensures whole == a' + b'
  {
  }
}
