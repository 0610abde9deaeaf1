/** Named lists, and the multiset of everything in them. */
module Buckets {

  type Buckets<T> = map<string, seq<T>>

  ghost function All<T>(buckets: Buckets<T>): multiset<T>
    decreases |buckets|
  {
    if buckets == map[] then multiset{}
    else
      var name :| name in buckets;
      multiset(buckets[name]) + All(buckets - {name})
  }

  function BucketOf<T>(buckets: Buckets<T>, name: string): seq<T> {
    if name in buckets then buckets[name] else []
  }

  /** Any list may be taken out first. */
  lemma {:induction false} AllWithout<T>(buckets: Buckets<T>, name: string)
    requires name in buckets
    ensures All(buckets) == multiset(buckets[name]) + All(buckets - {name})
    decreases |buckets|
  {
    var chosen :| chosen in buckets && All(buckets) == multiset(buckets[chosen]) + All(buckets - {chosen});
    if chosen != name {
      AllWithout(buckets - {chosen}, name);
      AllWithout(buckets - {name}, chosen);
      assert buckets - {chosen} - {name} == buckets - {name} - {chosen};
    }
  }

  lemma AllAfterUpdate<T>(buckets: Buckets<T>, name: string, list: seq<T>)
    ensures All(buckets[name := list]) == multiset(list) + All(buckets - {name})
  {
    AllWithout(buckets[name := list], name);
    assert buckets[name := list] - {name} == buckets - {name};
  }

  lemma AllOfBucket<T>(buckets: Buckets<T>, name: string)
    ensures All(buckets) == multiset(BucketOf(buckets, name)) + All(buckets - {name})
  {
    if name in buckets {
      AllWithout(buckets, name);
    } else {
      assert buckets - {name} == buckets;
    }
  }

  /** Appending to a list, which may be new, adds just that element. */
  lemma AllAfterAppend<T>(buckets: Buckets<T>, name: string, x: T)
    ensures All(buckets[name := BucketOf(buckets, name) + [x]]) == All(buckets) + multiset{x}
  {
    AllOfBucket(buckets, name);
    AllAfterUpdate(buckets, name, BucketOf(buckets, name) + [x]);
  }

  /** The lists under these names only. */
  function Part<T>(buckets: Buckets<T>, names: set<string>): Buckets<T> {
    map name | name in buckets && name in names :: buckets[name]
  }

  lemma PartGrows<T>(buckets: Buckets<T>, names: set<string>, name: string)
    requires name in buckets && name !in names
    ensures All(Part(buckets, names + {name})) == All(Part(buckets, names)) + multiset(buckets[name])
  {
    var larger := Part(buckets, names + {name});
    AllWithout(larger, name);
    assert larger - {name} == Part(buckets, names);
  }

  /** Each name once, in the order in which a map happens to be visited. */
  predicate ListsOnce(order: seq<string>, names: set<string>) {
    && (forall k :: 0 <= k < |order| ==> order[k] in names)
    && (forall name :: name in names ==> name in order)
    && (forall i, j :: 0 <= i < j < |order| ==> order[i] != order[j])
  }

  function Visited(order: seq<string>, k: nat): set<string>
    requires k <= |order|
  {
    set j | 0 <= j < k :: order[j]
  }

  lemma VisitNext(order: seq<string>, names: set<string>, k: nat)
    requires k < |order| && ListsOnce(order, names)
    ensures order[k] in names && order[k] !in Visited(order, k)
        && Visited(order, k + 1) == Visited(order, k) + {order[k]}
  {
  }

  lemma VisitedAll(order: seq<string>, names: set<string>)
    requires ListsOnce(order, names)
    ensures Visited(order, |order|) == names
  {
  }

  lemma PartOfAll<T>(buckets: Buckets<T>)
    ensures Part(buckets, buckets.Keys) == buckets
  {
  }

  ghost function SizeSoFar<T>(buckets: Buckets<T>, order: seq<string>, k: nat): nat
    requires k <= |order|
  {
    |All(Part(buckets, Visited(order, k)))|
  }

  /** The elements met on a visit to the first k names. */
  function Total<T>(buckets: Buckets<T>, order: seq<string>, k: nat): nat
    requires k <= |order| && forall j :: 0 <= j < |order| ==> order[j] in buckets
  {
    if k == 0 then 0 else Total(buckets, order, k - 1) + |buckets[order[k - 1]]|
  }

  lemma SizeGrows<T>(buckets: Buckets<T>, order: seq<string>, k: nat)
    requires k < |order| && ListsOnce(order, buckets.Keys)
    ensures SizeSoFar(buckets, order, k + 1) == SizeSoFar(buckets, order, k) + |buckets[order[k]]|
  {
    VisitNext(order, buckets.Keys, k);
    PartGrows(buckets, Visited(order, k), order[k]);
  }

  lemma SizeOfNone<T>(buckets: Buckets<T>, order: seq<string>)
    ensures SizeSoFar(buckets, order, 0) == 0
  {
  }

  lemma TotalGrows<T>(buckets: Buckets<T>, order: seq<string>, k: nat)
    requires k < |order| && forall j :: 0 <= j < |order| ==> order[j] in buckets
    ensures Total(buckets, order, k + 1) == Total(buckets, order, k) + |buckets[order[k]]|
  {
  }

  /** The next name adds its list to what was met. */
  ghost predicate GrowsAt<T>(buckets: Buckets<T>, order: seq<string>, k: nat)
    requires k < |order| && order[k] in buckets
  {
    SizeSoFar(buckets, order, k + 1) == SizeSoFar(buckets, order, k) + |buckets[order[k]]|
  }

  lemma {:induction false} TotalIs<T>(buckets: Buckets<T>, order: seq<string>, k: nat, n: nat)
    requires k <= n <= |order| && forall j :: 0 <= j < |order| ==> order[j] in buckets
    requires forall j: nat :: j < |order| ==> GrowsAt(buckets, order, j)
    requires Total(buckets, order, k) == SizeSoFar(buckets, order, k)
    ensures Total(buckets, order, n) == SizeSoFar(buckets, order, n)
    decreases n - k
  {
    if k < n {
      TotalGrows(buckets, order, k);
      assert GrowsAt(buckets, order, k);
      TotalIs(buckets, order, k + 1, n);
    }
  }

  lemma AlwaysGrows<T>(buckets: Buckets<T>, order: seq<string>)
    requires ListsOnce(order, buckets.Keys)
    ensures forall j :: 0 <= j < |order| ==> order[j] in buckets
    ensures forall j: nat :: j < |order| ==> GrowsAt(buckets, order, j)
  {
    forall j: nat | j < |order| ensures GrowsAt(buckets, order, j) {
      SizeGrows(buckets, order, j);
    }
  }

  /** A whole visit meets every element once. */
  lemma TotalIsAll<T>(buckets: Buckets<T>, order: seq<string>)
    requires ListsOnce(order, buckets.Keys)
    ensures Total(buckets, order, |order|) == |All(buckets)|
  {
    AlwaysGrows(buckets, order);
    SizeOfNone(buckets, order);
    TotalIs(buckets, order, 0, |order|);
    VisitedAll(order, buckets.Keys);
    PartOfAll(buckets);
  }
}
