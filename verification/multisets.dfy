/** Facts about sequences seen as multisets, used to reason about the
    reorderings produced by the dashboard's sorts. */
module Multisets {

  /** Cutting a sequence around position `i` keeps its multiset. */
  lemma SplitAt<T>(s: seq<T>, i: nat)
    requires i < |s|
    ensures multiset(s) == multiset(s[..i]) + multiset{s[i]} + multiset(s[i+1..])
  {
    assert s == s[..i] + [s[i]] + s[i+1..];
  }

  /** Removing position `i` removes exactly one copy of `s[i]`. */
  lemma DropAt<T>(s: seq<T>, i: nat)
    requires i < |s|
    ensures multiset(s[..i] + s[i+1..]) == multiset(s) - multiset{s[i]}
  {
    SplitAt(s, i);
  }

  /** Putting back the head of `s` in front of `rest`, which holds the tail of
      `s` plus `x`, gives `s` plus `x`. */
  lemma ConsHead<T>(s: seq<T>, rest: seq<T>, x: T)
    requires |s| > 0 && multiset(rest) == multiset(s[1..]) + multiset{x}
    ensures multiset([s[0]] + rest) == multiset(s) + multiset{x}
  {
    assert s == [s[0]] + s[1..];
  }

  /** Removing the last element removes exactly one copy of it. */
  lemma DropLast<T>(s: seq<T>)
    requires |s| > 0
    ensures multiset(s[..|s|-1]) == multiset(s) - multiset{s[|s|-1]}
  {
    assert s == s[..|s|-1] + [s[|s|-1]];
  }

  /** An element found at two positions occurs at least twice. */
  lemma TwoPositions<T>(s: seq<T>, i: nat, j: nat)
    requires i < |s| && j < |s| && i != j && s[i] == s[j]
    ensures multiset(s)[s[i]] >= 2
  {
    SplitAt(s, i);
    var rest := s[..i] + s[i+1..];
    if j < i {
      assert rest[j] == s[j];
    } else {
      assert rest[j-1] == s[j];
    }
    assert s[i] in multiset(rest);
    DropAt(s, i);
  }

  /** An element that occurs at least twice sits at a second position. */
  lemma OtherPosition<T>(s: seq<T>, i: nat)
    requires i < |s| && multiset(s)[s[i]] >= 2
    ensures exists j :: 0 <= j < |s| && j != i && s[j] == s[i]
  {
    DropAt(s, i);
    var rest := s[..i] + s[i+1..];
    assert s[i] in multiset(rest);
    var p :| 0 <= p < |rest| && rest[p] == s[i];
    if p < i {
      assert s[p] == s[i];
    } else {
      assert s[p+1] == s[i];
    }
  }

  /** Every element of a sequence sits at some position. */
  lemma PositionOf<T>(s: seq<T>, x: T) returns (i: nat)
    requires x in multiset(s)
    ensures i < |s| && s[i] == x
  {
    assert x in s;
    i :| 0 <= i < |s| && s[i] == x;
  }
}
