/**
 The list of known priorities and the two orders it can be kept in.

 `sortKeys` sorts the list with the numeric comparator `sort` and then reverses it
 when the queue is reversed. `Sort` below is a reference sort that uses that
 comparator; a sorted permutation of integers is unique, so any correct sort
 algorithm gives the same list.
 */
module Keys {

  /** `a` comes strictly before `b` in the traversal order chosen by `reversed`. */
  predicate Before(a: int, b: int, reversed: bool) {
    if reversed then a > b else a < b
  }

  /** Strictly ascending (`reversed` false) or strictly descending (`reversed` true). */
  predicate Ordered(s: seq<int>, reversed: bool) {
    forall i, j :: 0 <= i < j < |s| ==> Before(s[i], s[j], reversed)
  }

  predicate NonDecreasing(s: seq<int>) {
    forall i, j :: 0 <= i < j < |s| ==> s[i] <= s[j]
  }

  predicate NoDups<X(==)>(s: seq<X>) {
    forall i, j :: 0 <= i < j < |s| ==> s[i] != s[j]
  }

  /** The comparator `sort(n1, n2)`: never 0, positive exactly when `n1` must follow `n2`. */
  function Compare(n1: int, n2: int): (r: int)
    ensures r == 1 || r == -1
    ensures r > 0 <==> n1 > n2
  {
    if n1 > n2 then 1 else -1
  }

  /** Inserts `x` in front of the first element it does not have to follow. */
  function Insert(x: int, s: seq<int>): (r: seq<int>)
    ensures |r| == |s| + 1
    ensures multiset(r) == multiset(s) + multiset{x}
    ensures r[0] == x || (s != [] && r[0] == s[0])
  {
    if s == [] then [x]
    else if Compare(x, s[0]) > 0 then
      assert s == [s[0]] + s[1..];
      [s[0]] + Insert(x, s[1..])
    else [x] + s
  }

  lemma {:induction false} InsertNonDecreasing(x: int, s: seq<int>)
    requires NonDecreasing(s)
    ensures NonDecreasing(Insert(x, s))
  {
    if s != [] && Compare(x, s[0]) > 0 {
      InsertNonDecreasing(x, s[1..]);
      var t := Insert(x, s[1..]);
      assert s[0] <= t[0];
    }
  }

  lemma {:induction false} InsertOrdered(x: int, s: seq<int>)
    requires Ordered(s, false) && x !in s
    ensures Ordered(Insert(x, s), false)
  {
    if s != [] && Compare(x, s[0]) > 0 {
      InsertOrdered(x, s[1..]);
      var t := Insert(x, s[1..]);
      assert s[0] < t[0];
    }
  }

  /** `Array.prototype.sort` with the comparator `Compare`. */
  function Sort(s: seq<int>): (r: seq<int>)
    ensures |r| == |s|
    ensures multiset(r) == multiset(s)
    ensures NonDecreasing(r)
    ensures NoDups(s) ==> Ordered(r, false)
  {
    if s == [] then []
    else
      assert s == [s[0]] + s[1..];
      var t := Sort(s[1..]);
      InsertNonDecreasing(s[0], t);
      assert NoDups(s) ==> NoDups(s[1..]) && s[0] !in multiset(t);
      if NoDups(s) then
        InsertOrdered(s[0], t);
        Insert(s[0], t)
      else Insert(s[0], t)
  }

  /** `Array.prototype.reverse`. */
  function Reverse(s: seq<int>): (r: seq<int>)
    ensures |r| == |s|
    ensures forall i :: 0 <= i < |s| ==> r[i] == s[|s| - 1 - i]
    ensures multiset(r) == multiset(s)
  {
    if s == [] then []
    else
      assert s == [s[0]] + s[1..];
      Reverse(s[1..]) + [s[0]]
  }

  /** The key list as `sortKeys` leaves it: sorted, then reversed when `reversed` is set. */
  function Arrange(s: seq<int>, reversed: bool): (r: seq<int>)
    ensures multiset(r) == multiset(s)
    ensures NoDups(s) ==> Ordered(r, reversed)
  {
    var a := Sort(s);
    if reversed then Reverse(a) else a
  }

  lemma OrderedNoDups(s: seq<int>, reversed: bool)
    requires Ordered(s, reversed)
    ensures NoDups(s)
  {
  }

  /** No element of an ordered list comes before its head. */
  lemma OrderedHeadFirst(s: seq<int>, reversed: bool, x: int)
    requires Ordered(s, reversed) && x in s
    ensures !Before(x, s[0], reversed)
  {
    var k :| 0 <= k < |s| && s[k] == x;
    if k > 0 {
      assert Before(s[0], s[k], reversed);
    }
  }

  /** An ordered list without its head holds exactly the other elements. */
  lemma OrderedTail(s: seq<int>, reversed: bool, x: int)
    requires Ordered(s, reversed) && s != []
    ensures x in s[1..] <==> x in s && x != s[0]
  {
    if x in s && x != s[0] {
      var k :| 0 <= k < |s| && s[k] == x;
      assert s[1..][k - 1] == x;
    }
  }

  /** There is only one ordered listing of a given set of priorities. */
  lemma {:induction false} OrderedUnique(a: seq<int>, b: seq<int>, reversed: bool)
    requires Ordered(a, reversed) && Ordered(b, reversed)
    requires forall x :: x in a <==> x in b
    ensures a == b
  {
    if b != [] {
      var x := b[0];
      assert x in b && x in a;
    }
    if a != [] {
      var x := a[0];
      assert x in a && x in b;
      OrderedHeadFirst(a, reversed, b[0]);
      OrderedHeadFirst(b, reversed, a[0]);
      assert a[0] == b[0];
      forall x ensures x in a[1..] <==> x in b[1..] {
        OrderedTail(a, reversed, x);
        OrderedTail(b, reversed, x);
      }
      OrderedUnique(a[1..], b[1..], reversed);
      assert a == [a[0]] + a[1..] && b == [b[0]] + b[1..];
    }
  }

  /** `sortKeys` on a duplicate-free list yields the one ordered listing of its elements. */
  lemma ArrangeCanonical(s: seq<int>, t: seq<int>, reversed: bool)
    requires NoDups(s) && Ordered(t, reversed)
    requires forall x :: x in s <==> x in t
    ensures Arrange(s, reversed) == t
  {
    var r := Arrange(s, reversed);
    forall x ensures x in r <==> x in t {
      assert x in r <==> x in multiset(r);
      assert x in s <==> x in multiset(s);
    }
    OrderedUnique(r, t, reversed);
  }

  /** Flipping the direction and flipping it back restores the original key order. */
  lemma FlagRoundTrip(s: seq<int>, reversed: bool)
    requires Ordered(s, reversed)
    ensures Arrange(Arrange(s, !reversed), reversed) == s
  {
    OrderedNoDups(s, reversed);
    var t := Arrange(s, !reversed);
    OrderedNoDups(t, !reversed);
    forall x ensures x in t <==> x in s {
      assert x in t <==> x in multiset(t);
      assert x in s <==> x in multiset(s);
    }
    ArrangeCanonical(t, s, reversed);
  }

  lemma SameMembers(a: seq<int>, b: seq<int>)
    requires multiset(a) == multiset(b)
    ensures forall x :: x in a <==> x in b
  {
    forall x ensures x in a <==> x in b {
      assert x in a <==> x in multiset(a);
      assert x in b <==> x in multiset(b);
    }
  }

  /** Appending a priority that is not yet known keeps the list duplicate-free. */
  lemma AppendFresh(s: seq<int>, x: int)
    requires NoDups(s) && x !in s
    ensures NoDups(s + [x])
  {
  }
}
