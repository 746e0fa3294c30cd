/**
 `PriorityQueue<T>`: elements stored in one FIFO bucket per priority, plus the
 list of priorities seen so far, kept sorted ascending, or descending when the
 queue is reversed. `getNext` serves the first non-empty bucket in that order.
 */
module PriorityQueues {
  import opened Wrappers
  import opened Keys
  import opened Buckets

  /** A non-empty set of keys has an element to visit next. */
  lemma Choosable(s: set<int>)
    ensures s == {} || exists p :: p in s
  {
    if forall p :: p !in s {
      assert s == {};
    }
  }

  class PriorityQueue<T(==)> {
    /** `_isReversed`: traverse the priorities from largest to smallest. */
    var reversed: bool
    /** `keys`: every priority seen so far, in traversal order. */
    var keys: seq<int>
    /** `_items`: the bucket of every priority seen so far; emptied buckets stay. */
    var items: map<int, seq<T>>

    /** `keys` lists each bucket's priority once, in the direction `reversed` names. */
    ghost predicate Valid()
      reads this
    {
      && Ordered(keys, reversed)
      && (forall p :: p in keys <==> p in items)
    }

    /** The stored elements in the order `getNext` will return them. */
    ghost function Entries(): seq<Entry<T>>
      reads this
    {
      Schedule(keys, items)
    }

    constructor ()
      ensures Valid()
      ensures !reversed && keys == [] && items == map[]
      ensures Entries() == []
    {
      reversed := false;
      keys := [];
      items := map[];
    }

    /** The `isReversed` getter: the direction `keys` is sorted in, which the keys
        themselves show once there are two of them. */
    function IsReversed(): (r: bool)
      reads this
      requires Valid()
      ensures Ordered(keys, r)
      ensures |keys| >= 2 ==> (r <==> keys[0] > keys[|keys| - 1])
    {
      reversed
    }

    /** The `items` getter, as a snapshot: one bucket per known priority, holding
        that priority's elements in the order they will be dequeued. */
    function Items(): (m: map<int, seq<T>>)
      reads this
      requires Valid()
      ensures forall p :: p in m <==> p in keys
      ensures forall p :: p in m ==> m[p] == OfPriority(Entries(), p)
    {
      OrderedNoDups(keys, reversed);
      ScheduleOfEveryPriority(keys, items);
      items
    }

    /** The `isReversed` setter: stores the flag and re-sorts the keys. */
    method SetReversed(value: bool)
      requires Valid()
      modifies this
      ensures Valid()
      ensures reversed == value && items == old(items)
      ensures forall x :: x in keys <==> x in old(keys)
      ensures value == old(reversed) ==> keys == old(keys)
      ensures forall p :: OfPriority(Entries(), p) == OfPriority(old(Entries()), p)
    {
      ghost var before := keys;
      OrderedNoDups(keys, reversed);
      if value == reversed {
        ArrangeCanonical(keys, keys, value);
      }
      reversed := value;
      SortKeys();
      SameMembers(keys, before);
      OrderedNoDups(keys, reversed);
      RelistedSchedule(before, keys, items);
    }

    /** `sortKeys`: sort the keys numerically, then reverse them when reversed. */
    method SortKeys()
      modifies this
      ensures keys == Arrange(old(keys), reversed)
      ensures multiset(keys) == multiset(old(keys))
      ensures NoDups(old(keys)) ==> Ordered(keys, reversed)
      ensures items == old(items) && reversed == old(reversed)
    {
      keys := Sort(keys);
      if reversed {
        keys := Reverse(keys);
      }
    }

    /** `add`: append `data` to bucket `priority`, creating the bucket and
        registering the priority the first time it is seen. */
    method Add(data: T, priority: int)
      requires Valid()
      modifies this
      ensures Valid()
      ensures reversed == old(reversed)
      ensures items == old(items)[priority := Bucket(old(items), priority) + [data]]
      ensures priority in old(keys) ==> keys == old(keys)
      ensures forall x :: x in keys <==> x in old(keys) || x == priority
    {
      ghost var before := keys;
      ghost var start := items;
      OrderedNoDups(keys, reversed);
      if priority !in items {
        items := items[priority := []];
      }
      if IndexOf(keys, priority) == -1 {
        AppendFresh(keys, priority);
        keys := keys + [priority];
        SortKeys();
        SameMembers(keys, before + [priority]);
        assert forall x :: x in before + [priority] <==> x in before || x == priority;
      }
      items := items[priority := items[priority] + [data]];
      assert items == start[priority := Bucket(start, priority) + [data]];
    }

    /** `remove`: when a bucket exists at `priority`, delete the first occurrence
        (by `===`) of `data` from the first bucket, in the engine's enumeration
        order of the bucket object, that holds it. The other buckets and the
        keys are left alone. */
    method Remove(data: T, priority: int) returns (removed: bool)
      requires Valid()
      modifies this
      ensures Valid()
      ensures keys == old(keys) && reversed == old(reversed)
      ensures removed <==> priority in old(items) && exists q :: q in old(items) && data in old(items)[q]
      ensures !removed ==> items == old(items)
      ensures removed ==> exists q :: (q in old(items) && data in old(items)[q] &&
        items == old(items)[q := RemoveAt(old(items)[q], IndexOf(old(items)[q], data))])
    {
      if priority in items {
        var pending := items.Keys;
        while pending != {}
          invariant pending <= items.Keys
          invariant items == old(items) && keys == old(keys) && reversed == old(reversed)
          invariant forall q :: q in items && q !in pending ==> data !in items[q]
          decreases pending
        {
          Choosable(pending);
          var index :| index in pending;
          var position := IndexOf(items[index], data);
          if position > -1 {
            items := items[index := RemoveAt(items[index], position)];
            return true;
          }
          pending := pending - {index};
        }
      }
      return false;
    }

    /** `getNext`: take the front element of the first non-empty bucket in key
        order, or report `None` when every bucket is empty. */
    method GetNext() returns (r: Option<T>)
      requires Valid()
      modifies this
      ensures Valid()
      ensures keys == old(keys) && reversed == old(reversed)
      ensures r.None? <==> forall j :: 0 <= j < |keys| ==> Bucket(old(items), keys[j]) == []
      ensures r.None? ==> items == old(items)
      ensures r.Some? ==> exists i :: (0 <= i < |keys| &&
        (forall j :: 0 <= j < i ==> old(items)[keys[j]] == []) &&
        old(items)[keys[i]] != [] &&
        r.value == old(items)[keys[i]][0] &&
        items == old(items)[keys[i] := old(items)[keys[i]][1..]])
      ensures r.None? <==> old(Entries()) == []
      ensures r.Some? ==> r.value == old(Entries())[0].data && Entries() == old(Entries())[1..]
    {
      OrderedNoDups(keys, reversed);
      for i := 0 to |keys|
        invariant items == old(items)
        invariant forall j :: 0 <= j < i ==> Bucket(items, keys[j]) == []
      {
        var index := keys[i];
        assert index in items;
        if |items[index]| == 0 {
          continue;
        }
        var bucket := items[index];
        ShiftedSchedule(keys, items, i);
        r := Some(bucket[0]);
        items := items[index := bucket[1..]];
        return;
      }
      ScheduleSkipsEmpty(keys, items, |keys|);
      r := None;
    }

    /** The `items` setter: for each supplied priority, in an order the engine
        chooses, drain its sequence from the front into `add`. Returns the supplied
        mapping as the setter leaves it: every sequence emptied. */
    method SetItems(value: map<int, seq<T>>) returns (supplied: map<int, seq<T>>)
      requires Valid()
      modifies this
      ensures Valid()
      ensures reversed == old(reversed)
      ensures forall p :: p in items <==> p in old(items) || (p in value && value[p] != [])
      ensures forall p :: p in items ==> items[p] == Bucket(old(items), p) + Bucket(value, p)
      ensures supplied.Keys == value.Keys
      ensures forall p :: p in supplied ==> supplied[p] == []
    {
      supplied := value;
      var pending := value.Keys;
      while pending != {}
        invariant Valid() && reversed == old(reversed)
        invariant pending <= value.Keys && supplied.Keys == value.Keys
        invariant forall p :: p in supplied ==> supplied[p] == if p in pending then value[p] else []
        invariant forall p :: p in items <==> p in old(items) || (p in value && p !in pending && value[p] != [])
        invariant forall p :: p in items ==>
          items[p] == Bucket(old(items), p) + (if p in pending then [] else Bucket(value, p))
        decreases pending
      {
        Choosable(pending);
        var priority :| priority in pending;
        var rest := Drain(supplied[priority], priority);
        supplied := supplied[priority := rest];
        pending := pending - {priority};
      }
    }

    /** The draining loop of the `items` setter: `shift` elements off `data` and
        `add` each at `priority` until `data` is empty. A bucket is created only
        when there is something to add. */
    method Drain(data: seq<T>, priority: int) returns (rest: seq<T>)
      requires Valid()
      modifies this
      ensures Valid() && reversed == old(reversed)
      ensures rest == []
      ensures items == if data == [] then old(items)
        else old(items)[priority := Bucket(old(items), priority) + data]
    {
      rest := data;
      while rest != []
        invariant Valid() && reversed == old(reversed)
        invariant |rest| <= |data| && rest == data[|data| - |rest|..]
        invariant items == if |rest| == |data| then old(items)
          else old(items)[priority := Bucket(old(items), priority) + data[..|data| - |rest|]]
        decreases |rest|
      {
        var element := rest[0];
        ghost var n := |data| - |rest|;
        assert data[n] == element;
        assert data[..n + 1] == data[..n] + [element];
        assert Bucket(items, priority) == Bucket(old(items), priority) + data[..n];
        ghost var prev := items;
        assert Bucket(old(items), priority) + data[..n + 1] == Bucket(prev, priority) + [element];
        rest := rest[1..];
        Add(element, priority);
        assert items == prev[priority := Bucket(old(items), priority) + data[..n + 1]];
      }
      assert data[..|data|] == data;
    }
  }
}
