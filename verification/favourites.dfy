/** The favourites list of an account (main.js:69-79, 260-265): character ids
    in insertion order.  These functions are the specification the `User`
    methods and the toggle handler are proved against. */
module Favourites {

  /** No id occurs twice. */
  predicate NoDuplicates(s: seq<int>) {
    forall i, j | 0 <= i < j < |s| :: s[i] != s[j]
  }

  /** `r` is `s` with some entries dropped and the rest kept in order. */
  ghost predicate SubsequenceOf(r: seq<int>, s: seq<int>)
    decreases |s|
  {
    if r == [] then true
    else if s == [] then false
    else (r[0] == s[0] && SubsequenceOf(r[1..], s[1..])) || SubsequenceOf(r, s[1..])
  }

  /** `s.filter(fav => fav !== x)`: every occurrence of `x` removed. */
  function Without(s: seq<int>, x: int): (r: seq<int>)
    ensures multiset(r) == multiset(s)[x := 0]
    ensures x !in r
    ensures forall y | y != x :: y in r <==> y in s
  {
    if s == [] then []
    else
      assert s == [s[0]] + s[1..];
      if s[0] == x then Without(s[1..], x) else [s[0]] + Without(s[1..], x)
  }

  /** The list after `favoritos(x)`: `x` appended when absent, otherwise every
      occurrence of it removed. */
  function Toggled(s: seq<int>, x: int): (r: seq<int>)
    ensures x in r <==> x !in s
    ensures forall y | y != x :: y in r <==> y in s
  {
    if x !in s then s + [x] else Without(s, x)
  }

  /** Removing an id that is not there changes nothing. */
  lemma {:induction false} WithoutAbsent(s: seq<int>, x: int)
    requires x !in s
    ensures Without(s, x) == s
  {
    if s != [] {
      WithoutAbsent(s[1..], x);
    }
  }

  /** Removal distributes over concatenation, so each surviving entry keeps its
      place relative to every other surviving entry. */
  lemma {:induction false} WithoutAppend(a: seq<int>, b: seq<int>, x: int)
    ensures Without(a + b, x) == Without(a, x) + Without(b, x)
  {
    if a == [] {
      assert a + b == b;
    } else {
      assert (a + b)[1..] == a[1..] + b;
      WithoutAppend(a[1..], b, x);
    }
  }

  /** The result of a removal is a subsequence of the original list. */
  lemma {:induction false} WithoutIsSubsequence(s: seq<int>, x: int)
    ensures SubsequenceOf(Without(s, x), s)
  {
    if s != [] {
      WithoutIsSubsequence(s[1..], x);
      if s[0] != x {
        assert Without(s, x)[1..] == Without(s[1..], x);
      }
    }
  }

  /** A removal never introduces a duplicate. */
  lemma {:induction false} WithoutKeepsNoDuplicates(s: seq<int>, x: int)
    requires NoDuplicates(s)
    ensures NoDuplicates(Without(s, x))
  {
    if s != [] {
      assert NoDuplicates(s[1..]) by {
        forall i, j | 0 <= i < j < |s[1..]| ensures s[1..][i] != s[1..][j] {
          assert s[1..][i] == s[i + 1] && s[1..][j] == s[j + 1];
        }
      }
      WithoutKeepsNoDuplicates(s[1..], x);
      if s[0] != x {
        var t := Without(s[1..], x);
        assert s[0] !in s[1..];
        assert s[0] !in t;
        var r := [s[0]] + t;
        forall i, j | 0 <= i < j < |r| ensures r[i] != r[j] {
          if i == 0 {
            assert r[j] == t[j - 1];
          } else {
            assert r[i] == t[i - 1] && r[j] == t[j - 1];
          }
        }
      }
    }
  }

  /** Toggling an absent id appends it at the end: every earlier entry stays
      at its index. */
  lemma ToggleAbsentAppends(s: seq<int>, x: int)
    requires x !in s
    ensures |Toggled(s, x)| == |s| + 1 && Toggled(s, x)[|s|] == x
    ensures forall i | 0 <= i < |s| :: Toggled(s, x)[i] == s[i]
  {
  }

  /** Toggling a present id removes every occurrence of it, keeps the other
      entries with their multiplicities and in their relative order. */
  lemma ToggleRemovesAll(s: seq<int>, x: int)
    requires x in s
    ensures x !in Toggled(s, x)
    ensures multiset(Toggled(s, x)) == multiset(s)[x := 0]
    ensures SubsequenceOf(Toggled(s, x), s)
  {
    WithoutIsSubsequence(s, x);
  }

  /** Toggling an absent id twice gives back exactly the original list. */
  lemma ToggleTwiceRestores(s: seq<int>, x: int)
    requires x !in s
    ensures Toggled(Toggled(s, x), x) == s
  {
    WithoutAppend(s, [x], x);
    WithoutAbsent(s, x);
    assert Without([x], x) == [];
  }

  /** Toggling a present id twice restores its membership, but it moves to the
      end of the list and loses any duplicates. */
  lemma ToggleTwicePresent(s: seq<int>, x: int)
    requires x in s
    ensures Toggled(Toggled(s, x), x) == Without(s, x) + [x]
  {
  }

  /** A list without duplicates keeps that property under a toggle. */
  lemma ToggleKeepsNoDuplicates(s: seq<int>, x: int)
    requires NoDuplicates(s)
    ensures NoDuplicates(Toggled(s, x))
  {
    if x in s {
      WithoutKeepsNoDuplicates(s, x);
    }
  }

  /** Toggling 5 on [2, 9] gives [2, 9, 5]; toggling it again gives [2, 9]. */
  lemma ToggleExample()
    ensures Toggled([2, 9], 5) == [2, 9, 5]
    ensures Toggled([2, 9, 5], 5) == [2, 9]
  {
  }
}
