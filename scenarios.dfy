/**
 The scenarios of the queue's test suite, each as a client of `PriorityQueue`
 whose postcondition states the outcome the suite expects.
 */
module Scenarios {
  import opened Wrappers
  import opened Keys
  import opened Buckets
  import opened PriorityQueues

  /** An object element: compared by identity, never by its contents. */
  class Test {
    const value: string

    constructor (value: string)
      ensures this.value == value
    {
      this.value := value;
    }
  }

  /** In a valid queue the key list is determined by the bucket priorities. */
  lemma KnownKeys<T>(q: PriorityQueue<T>, ks: seq<int>)
    requires q.Valid()
    requires Ordered(ks, q.reversed)
    requires forall x :: x in ks <==> x in q.items
    ensures q.keys == ks
  {
    OrderedUnique(q.keys, ks, q.reversed);
  }

  /** Three `getNext` calls in a row: the first three scheduled elements. */
  method TakeThree<T>(q: PriorityQueue<T>) returns (out: seq<Option<T>>)
    requires q.Valid() && |q.Entries()| >= 3
    modifies q
    ensures q.Valid() && q.reversed == old(q.reversed)
    ensures out == [Some(old(q.Entries())[0].data), Some(old(q.Entries())[1].data), Some(old(q.Entries())[2].data)]
  {
    ghost var e := q.Entries();
    var a := q.GetNext();
    var b := q.GetNext();
    var c := q.GetNext();
    assert e[1..][1..][0] == e[2];
    out := [a, b, c];
  }

  /** Two `getNext` calls in a row: the first two scheduled elements. */
  method TakeTwo<T>(q: PriorityQueue<T>) returns (out: seq<Option<T>>)
    requires q.Valid() && |q.Entries()| >= 2
    modifies q
    ensures out == [Some(old(q.Entries())[0].data), Some(old(q.Entries())[1].data)]
  {
    var a := q.GetNext();
    var b := q.GetNext();
    out := [a, b];
  }

  method AddOne() returns (next: Option<string>)
    ensures next == Some("test")
  {
    var q := new PriorityQueue<string>();
    q.Add("test", 10);
    KnownKeys(q, [10]);
    next := q.GetNext();
  }

  /** `add(5, 100); add(100, 5); add(105, 105)` on a fresh queue. */
  method ThreePriorities(reversed: bool) returns (q: PriorityQueue<int>)
    ensures fresh(q) && q.Valid() && q.reversed == reversed
    ensures q.keys == if reversed then [105, 100, 5] else [5, 100, 105]
    ensures q.items == map[100 := [5], 5 := [100], 105 := [105]]
  {
    q := new PriorityQueue<int>();
    if reversed {
      q.SetReversed(true);
    }
    assert Bucket(q.items, 100) + [5] == [5];
    q.Add(5, 100);
    assert Bucket(q.items, 5) + [100] == [100];
    q.Add(100, 5);
    assert q.items == map[100 := [5], 5 := [100]];
    assert Bucket(q.items, 105) + [105] == [105];
    q.Add(105, 105);
    if reversed {
      KnownKeys(q, [105, 100, 5]);
    } else {
      KnownKeys(q, [5, 100, 105]);
    }
  }

  method AscendingByDefault() returns (out: seq<Option<int>>, flag: bool)
    ensures out == [Some(100), Some(5), Some(105)]
    ensures !flag
  {
    var q := ThreePriorities(false);
    ghost var items := q.items;
    assert Schedule([105], items) == [Entry(105, 105)];
    assert Schedule([100, 105], items) == [Entry(5, 100), Entry(105, 105)];
    assert Schedule([5, 100, 105], items) == [Entry(100, 5), Entry(5, 100), Entry(105, 105)];
    out := TakeThree(q);
    flag := q.IsReversed();
  }

  method DescendingWhenReversed() returns (out: seq<Option<int>>, flag: bool)
    ensures out == [Some(105), Some(5), Some(100)]
    ensures flag
  {
    var q := ThreePriorities(true);
    ghost var items := q.items;
    assert Schedule([5], items) == [Entry(100, 5)];
    assert Schedule([100, 5], items) == [Entry(5, 100), Entry(100, 5)];
    assert Schedule([105, 100, 5], items) == [Entry(105, 105), Entry(5, 100), Entry(100, 5)];
    out := TakeThree(q);
    flag := q.IsReversed();
  }

  method AscendingAgainWhenRestored() returns (out: seq<Option<int>>, flag: bool)
    ensures out == [Some(100), Some(5), Some(105)]
    ensures !flag
  {
    var q := ThreePriorities(true);
    q.SetReversed(false);
    KnownKeys(q, [5, 100, 105]);
    ghost var items := q.items;
    assert Schedule([105], items) == [Entry(105, 105)];
    assert Schedule([100, 105], items) == [Entry(5, 100), Entry(105, 105)];
    assert Schedule([5, 100, 105], items) == [Entry(100, 5), Entry(5, 100), Entry(105, 105)];
    out := TakeThree(q);
    flag := q.IsReversed();
  }

  /** `add('test', 1); add('mocha', 1); add('chai', 1)` on a fresh queue. */
  method ThreeAtOne() returns (q: PriorityQueue<string>)
    ensures fresh(q) && q.Valid() && q.keys == [1]
    ensures q.items == map[1 := ["test", "mocha", "chai"]]
  {
    q := new PriorityQueue<string>();
    assert Bucket(q.items, 1) + ["test"] == ["test"];
    q.Add("test", 1);
    assert Bucket(q.items, 1) + ["mocha"] == ["test", "mocha"];
    q.Add("mocha", 1);
    assert Bucket(q.items, 1) + ["chai"] == ["test", "mocha", "chai"];
    q.Add("chai", 1);
    KnownKeys(q, [1]);
  }

  method FifoWithinPriority() returns (out: seq<Option<string>>)
    ensures out == [Some("test"), Some("mocha"), Some("chai")]
  {
    var q := ThreeAtOne();
    ghost var items := q.items;
    assert Tagged(items[1], 1) == [Entry("test", 1), Entry("mocha", 1), Entry("chai", 1)];
    assert Schedule([1], items) == [Entry("test", 1), Entry("mocha", 1), Entry("chai", 1)];
    out := TakeThree(q);
  }

  /** `add('test', 1); add('mocha', 12); add('chai', 123)` on a fresh queue. */
  method ThreeNames() returns (q: PriorityQueue<string>)
    ensures fresh(q) && q.Valid() && !q.reversed && q.keys == [1, 12, 123]
    ensures q.items == map[1 := ["test"], 12 := ["mocha"], 123 := ["chai"]]
  {
    q := new PriorityQueue<string>();
    assert Bucket(q.items, 1) + ["test"] == ["test"];
    q.Add("test", 1);
    assert Bucket(q.items, 12) + ["mocha"] == ["mocha"];
    q.Add("mocha", 12);
    assert q.items == map[1 := ["test"], 12 := ["mocha"]];
    assert Bucket(q.items, 123) + ["chai"] == ["chai"];
    q.Add("chai", 123);
    KnownKeys(q, [1, 12, 123]);
  }

  /** `remove('mocha', 12)` after `ThreeNames`. */
  method RemoveMocha() returns (q: PriorityQueue<string>, removed: bool)
    ensures fresh(q) && q.Valid() && !q.reversed && q.keys == [1, 12, 123]
    ensures removed
    ensures q.items == map[1 := ["test"], 12 := [], 123 := ["chai"]]
  {
    q := ThreeNames();
    ghost var before := q.items;
    assert "mocha" in before[12];
    assert "mocha" !in before[1] && "mocha" !in before[123];
    assert RemoveAt(before[12], IndexOf(before[12], "mocha")) == [];
    removed := q.Remove("mocha", 12);
  }

  method RemoveAdded() returns (removed: bool, out: seq<Option<string>>)
    ensures removed
    ensures out == [Some("test"), Some("chai")]
  {
    var q;
    q, removed := RemoveMocha();
    ghost var items := q.items;
    assert Schedule([123], items) == [Entry("chai", 123)];
    assert Schedule([12, 123], items) == [Entry("chai", 123)];
    assert Schedule([1, 12, 123], items) == [Entry("test", 1), Entry("chai", 123)];
    out := TakeTwo(q);
  }

  method RemoveExactObject() returns (removed: bool, next: Option<Test>)
    ensures removed
    ensures next == None
  {
    var obj := new Test("test");
    var q := new PriorityQueue<Test>();
    q.Add(obj, 1);
    KnownKeys(q, [1]);
    removed := q.Remove(obj, 1);
    next := q.GetNext();
  }

  method KeepSimilarObject() returns (removed: bool, next: Option<Test>)
    ensures !removed
    ensures next != None
  {
    var stored := new Test("test");
    var q := new PriorityQueue<Test>();
    q.Add(stored, 1);
    KnownKeys(q, [1]);
    var lookalike := new Test("test");
    removed := q.Remove(lookalike, 1);
    next := q.GetNext();
  }

  method KeepUnderWrongPriority() returns (removed: bool, next: Option<Test>)
    ensures !removed
    ensures next != None
  {
    var obj := new Test("test");
    var q := new PriorityQueue<Test>();
    q.Add(obj, 1);
    KnownKeys(q, [1]);
    removed := q.Remove(obj, 2);
    next := q.GetNext();
  }

  /** Once the named bucket exists, `remove` takes a match from any bucket:
      `add('x', 1); add('y', 2); remove('x', 2)` deletes the `'x'` of bucket 1. */
  method RemoveAcrossBuckets() returns (removed: bool, next: Option<string>)
    ensures removed
    ensures next == Some("y")
  {
    var q := new PriorityQueue<string>();
    assert Bucket(q.items, 1) + ["x"] == ["x"];
    q.Add("x", 1);
    assert Bucket(q.items, 2) + ["y"] == ["y"];
    q.Add("y", 2);
    KnownKeys(q, [1, 2]);
    ghost var before := q.items;
    assert before == map[1 := ["x"], 2 := ["y"]];
    assert "x" in before[1] && "x" !in before[2];
    assert RemoveAt(before[1], IndexOf(before[1], "x")) == [];
    removed := q.Remove("x", 2);
    assert q.items == map[1 := [], 2 := ["y"]];
    ghost var items := q.items;
    assert Schedule([2], items) == [Entry("y", 2)];
    assert Schedule([1, 2], items) == [Entry("y", 2)];
    next := q.GetNext();
  }

  method EmptyStaysEmpty() returns (first: Option<string>, second: Option<string>)
    ensures first == None && second == None
  {
    var q := new PriorityQueue<string>();
    first := q.GetNext();
    second := q.GetNext();
  }

  method ItemsGetter() returns (count: nat)
    ensures count == 3
  {
    var q := new PriorityQueue<int>();
    q.Add(1, 0);
    q.Add(11, 0);
    q.Add(111, 0);
    var items := q.Items();
    count := |items[0]|;
  }

  /** `items = {1: [2, 1], 0: [0]}` on a fresh queue. */
  method SetTwoBuckets() returns (q: PriorityQueue<int>)
    ensures fresh(q) && q.Valid() && q.keys == [0, 1]
    ensures q.items == map[0 := [0], 1 := [2, 1]]
  {
    q := new PriorityQueue<int>();
    var value := map[1 := [2, 1], 0 := [0]];
    assert Bucket(q.items, 0) + Bucket(value, 0) == [0];
    assert Bucket(q.items, 1) + Bucket(value, 1) == [2, 1];
    var supplied := q.SetItems(value);
    assert forall p :: p in q.items <==> p == 0 || p == 1;
    assert q.items == map[0 := [0], 1 := [2, 1]];
    KnownKeys(q, [0, 1]);
  }

  method ItemsSetter() returns (out: seq<Option<int>>)
    ensures out == [Some(0), Some(2), Some(1)]
  {
    var q := SetTwoBuckets();
    ghost var items := q.items;
    assert Schedule([1], items) == [Entry(2, 1), Entry(1, 1)];
    assert Schedule([0, 1], items) == [Entry(0, 0), Entry(2, 1), Entry(1, 1)];
    out := TakeThree(q);
  }
}
