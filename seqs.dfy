// Removal of one element by identity, as Java's `List.contains` followed by
// `List.remove(Object)` performs it on the store's lists and on a product's
// associated parts: the FIRST occurrence goes, everything else stays in order.
module Seqs {

  /** `s` with its first occurrence of `x` taken out; `s` itself if `x` does
      not occur. */
  function RemoveFirst<T(==)>(s: seq<T>, x: T): (r: seq<T>)
  {
    if s == [] then []
    else if s[0] == x then s[1..]
    else [s[0]] + RemoveFirst(s[1..], x)
  }

  /** `List.indexOf`: the position of the first occurrence, -1 if none. */
  method IndexOf<T(==)>(s: seq<T>, x: T) returns (i: int)
    ensures -1 <= i < |s|
    ensures i == -1 <==> x !in s
    ensures 0 <= i ==> s[i] == x && x !in s[..i]
  {
    i := 0;
    while i < |s|
      invariant 0 <= i <= |s|
      invariant x !in s[..i]
    {
      if s[i] == x {
        return;
      }
      assert s[..i + 1] == s[..i] + [s[i]];
      i := i + 1;
    }
    assert s[..i] == s;
    i := -1;
  }

  /** Removing the first occurrence at position i cuts out exactly that
      position. */
  lemma {:induction false} RemoveFirstAt<T>(s: seq<T>, x: T, i: nat)
    requires i < |s| && s[i] == x && x !in s[..i]
    ensures RemoveFirst(s, x) == s[..i] + s[i + 1..]
    decreases i
  {
    if i > 0 {
      assert s[1..][..i - 1] == s[1..i];
      assert x !in s[1..][..i - 1];
      RemoveFirstAt(s[1..], x, i - 1);
      assert s[1..][i - 1 + 1..] == s[i + 1..];
      calc {
        RemoveFirst(s, x);
        [s[0]] + (s[1..][..i - 1] + s[i + 1..]);
        { assert [s[0]] + s[1..i] == s[..i]; }
        s[..i] + s[i + 1..];
      }
    }
  }

  /** Removing an absent element changes nothing. */
  lemma {:induction false} RemoveFirstAbsent<T>(s: seq<T>, x: T)
    requires x !in s
    ensures RemoveFirst(s, x) == s
  {
    if s != [] {
      RemoveFirstAbsent(s[1..], x);
    }
  }

  /** Removing a present element takes out exactly one occurrence of it:
      the length drops by one and no other element is lost or gained. */
  lemma {:induction false} RemoveFirstPresent<T>(s: seq<T>, x: T)
    requires x in s
    ensures |RemoveFirst(s, x)| == |s| - 1
    ensures multiset(RemoveFirst(s, x)) == multiset(s) - multiset{x}
  {
    if s[0] != x {
      assert s == [s[0]] + s[1..];
      RemoveFirstPresent(s[1..], x);
    } else {
      assert s == [s[0]] + s[1..];
    }
  }

  /** Deleting an element from a list to which a different element was just
      appended is the same as deleting first and appending afterwards: the
      appended element stays last. */
  lemma {:induction false} RemoveFirstAppend<T>(s: seq<T>, y: T, x: T)
    requires x != y
    ensures RemoveFirst(s + [y], x) == RemoveFirst(s, x) + [y]
  {
    if s == [] {
      assert [] + [y] == [y];
    } else {
      assert (s + [y])[1..] == s[1..] + [y];
      RemoveFirstAppend(s[1..], y, x);
    }
  }

  /** Whatever RemoveFirst keeps was already in the list. */
  lemma {:induction false} RemoveFirstSubset<T>(s: seq<T>, x: T, y: T)
    requires y in RemoveFirst(s, x)
    ensures y in s
  {
    if s != [] && s[0] != x && y != s[0] {
      RemoveFirstSubset(s[1..], x, y);
    }
  }
}
