/**
 The bucket storage of the queue: one FIFO sequence per priority, the two array
 primitives the queue applies to a bucket (`indexOf` and `splice(i, 1)`), and the
 schedule, the order in which `getNext` hands the stored elements out.
 */
module Buckets {
  import opened Keys

  /** `indexOf` with `===`: the first position holding `x`, or -1 when there is none. */
  function IndexOf<X(==)>(s: seq<X>, x: X): (r: int)
    ensures -1 <= r < |s|
    ensures r == -1 <==> x !in s
    ensures r >= 0 ==> s[r] == x && x !in s[..r]
  {
    if s == [] then -1
    else if s[0] == x then 0
    else
      var k := IndexOf(s[1..], x);
      assert k >= 0 ==> s[..k + 1] == [s[0]] + s[1..][..k];
      if k == -1 then -1 else k + 1
  }

  /** `splice(i, 1)`: drops position `i`; the elements after it move up one place. */
  function RemoveAt<X>(s: seq<X>, i: nat): (r: seq<X>)
    requires i < |s|
    ensures |r| == |s| - 1
    ensures forall j :: 0 <= j < |r| ==> r[j] == if j < i then s[j] else s[j + 1]
    ensures multiset(r) == multiset(s) - multiset{s[i]}
  {
    assert s == s[..i] + [s[i]] + s[i + 1..];
    s[..i] + s[i + 1..]
  }

  /** The bucket stored at priority `p`; a missing bucket reads as empty. */
  function Bucket<T>(items: map<int, seq<T>>, p: int): seq<T> {
    if p in items then items[p] else []
  }

  /** An element together with the priority it was stored under. */
  datatype Entry<T> = Entry(data: T, priority: int)

  function Tagged<T>(xs: seq<T>, p: int): (r: seq<Entry<T>>)
    ensures |r| == |xs|
    ensures forall i :: 0 <= i < |xs| ==> r[i] == Entry(xs[i], p)
  {
    seq(|xs|, i requires 0 <= i < |xs| => Entry(xs[i], p))
  }

  /** Every stored element in the order repeated `getNext` calls return them:
      bucket by bucket in `keys` order, front first within a bucket. */
  function Schedule<T>(keys: seq<int>, items: map<int, seq<T>>): seq<Entry<T>> {
    if keys == [] then [] else Tagged(Bucket(items, keys[0]), keys[0]) + Schedule(keys[1..], items)
  }

  /** The elements of priority `p` in `s`, in their order in `s`. */
  function OfPriority<T>(s: seq<Entry<T>>, p: int): seq<T> {
    if s == [] then []
    else (if s[0].priority == p then [s[0].data] else []) + OfPriority(s[1..], p)
  }

  lemma {:induction false} OfPriorityAppend<T>(a: seq<Entry<T>>, b: seq<Entry<T>>, p: int)
    ensures OfPriority(a + b, p) == OfPriority(a, p) + OfPriority(b, p)
  {
    if a == [] {
      assert a + b == b;
    } else {
      var c := a + b;
      assert c[0] == a[0];
      assert c[1..] == a[1..] + b;
      OfPriorityAppend(a[1..], b, p);
      assert OfPriority(c, p) == (if a[0].priority == p then [a[0].data] else []) + OfPriority(c[1..], p);
      assert OfPriority(a, p) == (if a[0].priority == p then [a[0].data] else []) + OfPriority(a[1..], p);
    }
  }

  lemma {:induction false} OfPriorityTagged<T>(xs: seq<T>, q: int, p: int)
    ensures OfPriority(Tagged(xs, q), p) == if q == p then xs else []
  {
    if xs != [] {
      assert Tagged(xs, q)[1..] == Tagged(xs[1..], q);
      OfPriorityTagged(xs[1..], q, p);
      assert xs == [xs[0]] + xs[1..];
    }
  }

  /** FIFO within a priority: the priority-`p` elements of the schedule are exactly
      bucket `p`, in bucket order, when `p` is a known priority, and none otherwise. */
  lemma {:induction false} ScheduleOfPriority<T>(keys: seq<int>, items: map<int, seq<T>>, p: int)
    requires NoDups(keys)
    ensures OfPriority(Schedule(keys, items), p) == if p in keys then Bucket(items, p) else []
  {
    if keys != [] {
      var k := keys[0];
      OfPriorityAppend(Tagged(Bucket(items, k), k), Schedule(keys[1..], items), p);
      OfPriorityTagged(Bucket(items, k), k, p);
      assert NoDups(keys[1..]);
      ScheduleOfPriority(keys[1..], items, p);
      assert p in keys <==> p == k || p in keys[1..];
      assert k !in keys[1..];
    }
  }

  lemma ScheduleOfEveryPriority<T>(keys: seq<int>, items: map<int, seq<T>>)
    requires NoDups(keys)
    ensures forall p :: OfPriority(Schedule(keys, items), p) == if p in keys then Bucket(items, p) else []
  {
    forall p ensures OfPriority(Schedule(keys, items), p) == if p in keys then Bucket(items, p) else [] {
      ScheduleOfPriority(keys, items, p);
    }
  }

  /** Every scheduled element carries a known priority and sits in that bucket. */
  lemma {:induction false} SchedulePriorities<T>(keys: seq<int>, items: map<int, seq<T>>)
    ensures forall i :: 0 <= i < |Schedule(keys, items)| ==>
      Schedule(keys, items)[i].priority in keys &&
      Schedule(keys, items)[i].data in Bucket(items, Schedule(keys, items)[i].priority)
  {
    if keys != [] {
      SchedulePriorities(keys[1..], items);
      var head := Tagged(Bucket(items, keys[0]), keys[0]);
      var s := Schedule(keys, items);
      forall i | |head| <= i < |s|
        ensures s[i] == Schedule(keys[1..], items)[i - |head|]
      {
      }
    }
  }

  /** Priority first: along the schedule, priorities never go against the key order. */
  lemma {:induction false} ScheduleOrdered<T>(keys: seq<int>, items: map<int, seq<T>>, reversed: bool)
    requires Ordered(keys, reversed)
    ensures forall i, j :: 0 <= i < j < |Schedule(keys, items)| ==>
      Schedule(keys, items)[i].priority == Schedule(keys, items)[j].priority ||
      Before(Schedule(keys, items)[i].priority, Schedule(keys, items)[j].priority, reversed)
  {
    if keys != [] {
      var k := keys[0];
      var head := Tagged(Bucket(items, k), k);
      var rest := Schedule(keys[1..], items);
      var s := Schedule(keys, items);
      assert s == head + rest;
      ScheduleOrdered(keys[1..], items, reversed);
      SchedulePriorities(keys[1..], items);
      forall i, j | 0 <= i < j < |s|
        ensures s[i].priority == s[j].priority || Before(s[i].priority, s[j].priority, reversed)
      {
        if j < |head| {
          assert s[i].priority == k && s[j].priority == k;
        } else if i < |head| {
          assert s[i].priority == k;
          assert s[j] == rest[j - |head|];
          var m :| 0 <= m < |keys[1..]| && keys[1..][m] == s[j].priority;
          assert keys[m + 1] == s[j].priority;
        } else {
          assert s[i] == rest[i - |head|] && s[j] == rest[j - |head|];
        }
      }
    }
  }

  /** A bucket whose priority is not listed does not show in the schedule. */
  lemma {:induction false} ScheduleIgnores<T>(keys: seq<int>, items: map<int, seq<T>>, k: int, b: seq<T>)
    requires k !in keys
    ensures Schedule(keys, items[k := b]) == Schedule(keys, items)
  {
    if keys != [] {
      ScheduleIgnores(keys[1..], items, k, b);
    }
  }

  /** Empty buckets at the front of the key list contribute nothing. */
  lemma {:induction false} ScheduleSkipsEmpty<T>(keys: seq<int>, items: map<int, seq<T>>, n: nat)
    requires n <= |keys|
    requires forall j :: 0 <= j < n ==> Bucket(items, keys[j]) == []
    ensures Schedule(keys, items) == Schedule(keys[n..], items)
  {
    if n > 0 {
      ScheduleSkipsEmpty(keys[1..], items, n - 1);
      assert keys[1..][n - 1..] == keys[n..];
      assert Tagged(Bucket(items, keys[0]), keys[0]) == [];
    }
  }

  /** Listing the same priorities in another order leaves each priority's elements alone. */
  lemma RelistedSchedule<T>(a: seq<int>, b: seq<int>, items: map<int, seq<T>>)
    requires NoDups(a) && NoDups(b)
    requires forall x :: x in a <==> x in b
    ensures forall p :: OfPriority(Schedule(b, items), p) == OfPriority(Schedule(a, items), p)
  {
    ScheduleOfEveryPriority(a, items);
    ScheduleOfEveryPriority(b, items);
  }

  /** Appending `data` to bucket `q` (registering `q` if new) appends it to the
      priority-`q` elements of the schedule and to no other priority's. */
  lemma AppendedSchedule<T>(a: seq<int>, b: seq<int>, items: map<int, seq<T>>, q: int, data: T)
    requires NoDups(a) && NoDups(b)
    requires forall x :: x in a <==> x in items
    requires forall x :: x in b <==> x in a || x == q
    ensures forall p :: (OfPriority(Schedule(b, items[q := Bucket(items, q) + [data]]), p) ==
      OfPriority(Schedule(a, items), p) + (if p == q then [data] else []))
  {
    ScheduleOfEveryPriority(a, items);
    ScheduleOfEveryPriority(b, items[q := Bucket(items, q) + [data]]);
  }

  /** Changing the bucket at `keys[i]` leaves the empty buckets before it empty. */
  lemma {:induction false} EmptyPrefixKept<T>(keys: seq<int>, items: map<int, seq<T>>, i: nat, b: seq<T>)
    requires NoDups(keys) && i < |keys|
    requires forall j :: 0 <= j < i ==> Bucket(items, keys[j]) == []
    ensures forall j :: 0 <= j < i ==> Bucket(items[keys[i] := b], keys[j]) == []
  {
    forall j | 0 <= j < i ensures Bucket(items[keys[i] := b], keys[j]) == [] {
      assert keys[j] != keys[i];
    }
  }

  /** The schedule from the first non-empty bucket on: that bucket, then the rest. */
  lemma FromBucket<T>(keys: seq<int>, items: map<int, seq<T>>, i: nat)
    requires i < |keys|
    requires forall j :: 0 <= j < i ==> Bucket(items, keys[j]) == []
    ensures Schedule(keys, items) == Tagged(Bucket(items, keys[i]), keys[i]) + Schedule(keys[i + 1..], items)
  {
    ScheduleSkipsEmpty(keys, items, i);
    assert keys[i..][1..] == keys[i + 1..];
  }

  /** Taking the front of the first non-empty bucket in key order takes the front
      of the schedule. */
  lemma ShiftedSchedule<T>(keys: seq<int>, items: map<int, seq<T>>, i: nat)
    requires NoDups(keys) && i < |keys|
    requires forall j :: 0 <= j < i ==> Bucket(items, keys[j]) == []
    requires Bucket(items, keys[i]) != []
    ensures Schedule(keys, items) != []
    ensures Schedule(keys, items)[0] == Entry(Bucket(items, keys[i])[0], keys[i])
    ensures Schedule(keys, items[keys[i] := Bucket(items, keys[i])[1..]]) == Schedule(keys, items)[1..]
  {
    var k := keys[i];
    var b := Bucket(items, k);
    var after := items[k := b[1..]];
    FromBucket(keys, items, i);
    EmptyPrefixKept(keys, items, i, b[1..]);
    FromBucket(keys, after, i);
    assert Bucket(after, k) == b[1..];
    assert k !in keys[i + 1..];
    ScheduleIgnores(keys[i + 1..], items, k, b[1..]);
    assert Tagged(b, k)[1..] == Tagged(b[1..], k);
    assert (Tagged(b, k) + Schedule(keys[i + 1..], items))[1..] == Tagged(b, k)[1..] + Schedule(keys[i + 1..], items);
  }
}
