/**
 The cache of GPU views: a list of nodes, most recently used first, and a map from keys into the same nodes.
 */
module LruCache {
  import opened Common

  /** The cache as a value: the keys, most recently used first, and their values. Capacity 0 means no limit. */
  datatype Recency<K, V> = Recency(capacity: nat, order: seq<K>, values: map<K, V>)

  function Without<K(==)>(order: seq<K>, key: K): seq<K> {
    if order == [] then []
    else if order[0] == key then order[1..]
    else [order[0]] + Without(order[1..], key)
  }

  function ToFront<K(==)>(order: seq<K>, key: K): seq<K> {
    [key] + Without(order, key)
  }

  function Kept<K>(capacity: nat, order: seq<K>): seq<K> {
    if capacity == 0 || |order| <= capacity then order else order[..capacity]
  }

  function Trim<K(==), V>(c: Recency<K, V>): Recency<K, V> {
    var kept := Kept(c.capacity, c.order);
    c.(order := kept, values := map k | k in c.values && k in kept :: c.values[k])
  }

  function AfterGet<K(==), V>(c: Recency<K, V>, key: K): Recency<K, V> {
    if key in c.values then c.(order := ToFront(c.order, key)) else c
  }

  function AfterPut<K(==), V>(c: Recency<K, V>, key: K, val: V): Recency<K, V> {
    Trim(c.(order := ToFront(c.order, key), values := c.values[key := val]))
  }

  function Lookup<K(==), V>(c: Recency<K, V>, key: K): Option<V> {
    if key in c.values then Some(c.values[key]) else None
  }

  ghost predicate Distinct<K>(order: seq<K>) {
    forall i, j :: 0 <= i < j < |order| ==> order[i] != order[j]
  }

  /** The keys of the list are those of the map, each once. */
  ghost predicate Linked<K, V>(c: Recency<K, V>) {
    && Distinct(c.order)
    && (forall k :: k in c.order ==> k in c.values)
    && (forall k :: k in c.values ==> k in c.order)
  }

  /** Linked, and no more entries than the capacity. */
  ghost predicate Consistent<K, V>(c: Recency<K, V>) {
    Linked(c) && (c.capacity > 0 ==> |c.order| <= c.capacity)
  }

  class Node<K, V> {
    const key: K
    var val: V

    constructor (key: K, val: V)
      ensures this.key == key && this.val == val
    {
      this.key, this.val := key, val;
    }
  }

  /** The list holds the nodes the map leads to, in the given order of their keys. */
  ghost predicate SameNodes<K, V>(order: seq<K>, items: seq<Node<K, V>>, index: map<K, Node<K, V>>) {
    && Distinct(order) && |items| == |order|
    && (forall k :: k in order ==> k in index)
    && (forall k :: k in index ==> k in order && index[k].key == k)
    && (forall i :: 0 <= i < |order| ==> items[i] == index[order[i]])
  }

  class Cache<K(==), V> {
    var capacity: nat
    var items: seq<Node<K, V>>
    var index: map<K, Node<K, V>>
    ghost var order: seq<K>

    ghost predicate Valid()
      reads this
    {
      SameNodes(order, items, index) && (capacity > 0 ==> |items| <= capacity)
    }

    ghost function Value(): (c: Recency<K, V>)
      reads this, index.Values
    {
      Recency(capacity, order, map k | k in index :: index[k].val)
    }

    constructor (capacity: nat)
      ensures Valid() && Value() == Recency(capacity, [], map[])
    {
      this.capacity, items, index, order := capacity, [], map[], [];
    }

    method Clear()
      modifies this`items, this`index, this`order
      ensures Valid() && Value() == Recency(capacity, [], map[])
    {
      items, index, order := [], map[], [];
    }

    method SetCapacity(capacity: nat)
      requires Valid()
      modifies this
      ensures Valid() && Value() == Trim(old(Value()).(capacity := capacity))
    {
      this.capacity := capacity;
      assert Value() == old(Value()).(capacity := capacity);
      EvictIfNeeded();
    }

    /** Moves a node of the list to its front. */
    method Splice(node: Node<K, V>)
      requires SameNodes(order, items, index) && node.key in index && index[node.key] == node
      modifies this`items, this`order
      ensures SameNodes(order, items, index) && order == ToFront(old(order), node.key) && |order| == old(|order|)
    {
      ghost var at :| 0 <= at < |order| && order[at] == node.key;
      assert items[at] == node;
      var i :| 0 <= i < |items| && items[i] == node;
      assert order[i] == node.key;
      MovedToFront(order, items, index, i);
      items := [node] + items[..i] + items[i + 1..];
      order := ToFront(order, node.key);
    }

    method Get(key: K) returns (out: Option<V>)
      requires Valid()
      modifies this`items, this`order
      ensures Valid() && Value() == AfterGet(old(Value()), key)
      ensures out == Lookup(old(Value()), key)
    {
      if key !in index {
        return None;
      }
      out := Some(index[key].val);
      Splice(index[key]);
      assert Value().values == old(Value()).values;
    }

    method Put(key: K, val: V)
      requires Valid()
      modifies this, index.Values
      ensures Valid() && Value() == AfterPut(old(Value()), key, val)
    {
      if key in index {
        Overwrite(key, val);
      } else {
        Insert(key, val);
        EvictIfNeeded();
      }
    }

    method Overwrite(key: K, val: V)
      requires Valid() && key in index
      modifies this`items, this`order, index[key]
      ensures Valid() && Value() == AfterPut(old(Value()), key, val)
    {
      ghost var was := Value();
      var node := index[key];
      node.val := val;
      ghost var values := Value().values;
      assert values == was.values[key := val];
      Splice(node);
      assert Value().values == values;
      OverwrittenIsPut(was, Value(), key, val);
    }

    method Insert(key: K, val: V)
      requires SameNodes(order, items, index) && key !in index
      modifies this`items, this`index, this`order
      ensures SameNodes(order, items, index) && capacity == old(capacity)
      ensures Value() == old(Value()).(order := ToFront(old(order), key), values := old(Value()).values[key := val])
    {
      ghost var was := Value();
      NewKeyInFront(order, items, index, key);
      var node := new Node(key, val);
      items := [node] + items;
      index := index[key := node];
      order := ToFront(order, key);
      assert Value().values == was.values[key := val];
    }

    method EvictIfNeeded()
      requires SameNodes(order, items, index)
      modifies this`items, this`index, this`order
      ensures Valid() && Value() == Trim(old(Value()))
    {
      ghost var was := Value();
      if capacity == 0 {
        assert Value().values == Trim(was).values;
        return;
      }
      EvictBack();
      TrimmedTo(was, Value());
    }

    /** Drops nodes from the back of the list while there are more than the capacity. */
    method EvictBack()
      requires SameNodes(order, items, index) && capacity > 0
      modifies this`items, this`index, this`order
      ensures Valid() && order == Kept(capacity, old(order))
      ensures forall k :: k in index ==> k in old(index) && index[k] == old(index)[k]
    {
      while |items| > capacity
        invariant SameNodes(order, items, index)
        invariant |order| <= |old(order)| && order == old(order)[..|order|]
        invariant |order| >= capacity || order == old(order)
        invariant forall k :: k in index ==> k in old(index) && index[k] == old(index)[k]
      {
        ghost var before := order;
        DropLast();
        assert order == before[..|before| - 1] == old(order)[..|order|];
      }
    }

    method DropLast()
      requires SameNodes(order, items, index) && items != []
      modifies this`items, this`index, this`order
      ensures SameNodes(order, items, index) && order == old(order)[..|old(order)| - 1]
      ensures forall k :: k in index ==> k in old(index) && index[k] == old(index)[k]
    {
      LastDropped(order, items, index);
      var last := items[|items| - 1];
      index := index - {last.key};
      items := items[..|items| - 1];
      order := order[..|order| - 1];
    }
  }

  lemma TrimmedTo<K, V>(c: Recency<K, V>, after: Recency<K, V>)
    requires Linked(after) && after.capacity == c.capacity && after.order == Kept(c.capacity, c.order)
    requires forall k :: k in after.values ==> k in c.values && after.values[k] == c.values[k]
    requires forall k :: k in c.order ==> k in c.values
    ensures after == Trim(c)
  {
    assert after.values == Trim(c).values;
  }

  /** A put of a key that is there makes nothing too many. */
  lemma OverwrittenIsPut<K, V>(c: Recency<K, V>, after: Recency<K, V>, key: K, val: V)
    requires Linked(c) && key in c.order && (c.capacity > 0 ==> |c.order| <= c.capacity)
    requires after == c.(order := ToFront(c.order, key), values := c.values[key := val])
    ensures after == AfterPut(c, key, val)
  {
    ToFrontKeeps(c.order, key);
    TrimmedTo(after, after);
  }

  lemma MovedToFront<K, V>(order: seq<K>, items: seq<Node<K, V>>, index: map<K, Node<K, V>>, i: nat)
    requires SameNodes(order, items, index) && i < |items|
    ensures SameNodes(ToFront(order, order[i]), [items[i]] + items[..i] + items[i + 1..], index)
  {
    var moved := [items[i]] + items[..i] + items[i + 1..];
    SplicedAt(items, i);
    ToFrontAt(order, i);
    ToFrontKeeps(order, order[i]);
    MovedNodes(order, items, index, i, ToFront(order, order[i]), moved);
  }

  /** Where element j was before element i moved to the front. */
  function CameFrom(i: nat, j: nat): nat {
    if j == 0 then i else if j <= i then j - 1 else j
  }

  lemma SplicedAt<T>(items: seq<T>, i: nat)
    requires i < |items|
    ensures var moved := [items[i]] + items[..i] + items[i + 1..];
            |moved| == |items| && forall j :: 0 <= j < |moved| ==> moved[j] == items[CameFrom(i, j)]
  {
  }

  lemma ToFrontAt<K>(order: seq<K>, i: nat)
    requires Distinct(order) && i < |order|
    ensures var front := ToFront(order, order[i]);
            |front| == |order| && forall j :: 0 <= j < |front| ==> front[j] == order[CameFrom(i, j)]
  {
    WithoutElements(order, i);
  }

  lemma MovedNodes<K, V>(order: seq<K>, items: seq<Node<K, V>>, index: map<K, Node<K, V>>, i: nat, front: seq<K>,
                         moved: seq<Node<K, V>>)
    requires SameNodes(order, items, index) && i < |items| && |front| == |moved| == |items|
    requires forall j :: 0 <= j < |front| ==> front[j] == order[CameFrom(i, j)]
    requires forall j :: 0 <= j < |moved| ==> moved[j] == items[CameFrom(i, j)]
    requires Distinct(front) && forall k :: k in order ==> k in front
    ensures SameNodes(front, moved, index)
  {
    forall j | 0 <= j < |front|
      ensures moved[j] == index[front[j]]
    {
      assert items[CameFrom(i, j)] == index[order[CameFrom(i, j)]];
    }
  }

  lemma NewKeyInFront<K, V>(order: seq<K>, items: seq<Node<K, V>>, index: map<K, Node<K, V>>, key: K)
    requires SameNodes(order, items, index) && key !in index
    ensures ToFront(order, key) == [key] + order && key !in order
  {
    WithoutAbsent(order, key);
  }

  lemma LastDropped<K, V>(order: seq<K>, items: seq<Node<K, V>>, index: map<K, Node<K, V>>)
    requires SameNodes(order, items, index) && items != []
    ensures items[|items| - 1].key == order[|order| - 1]
    ensures SameNodes(order[..|order| - 1], items[..|items| - 1], index - {items[|items| - 1].key})
  {
    var last, shorter := order[|order| - 1], order[..|order| - 1];
    assert order == shorter + [last] && last !in shorter;
  }

  lemma {:induction false} ToFrontKeeps<K>(order: seq<K>, key: K)
    requires Distinct(order)
    ensures Distinct(ToFront(order, key)) && key !in Without(order, key)
    ensures forall k :: k in Without(order, key) ==> k in order
    ensures forall k :: k in order && k != key ==> k in Without(order, key)
    ensures |Without(order, key)| == if key in order then |order| - 1 else |order|
  {
    if key in order {
      var i :| 0 <= i < |order| && order[i] == key;
      WithoutAtKeeps(order, i);
    } else {
      WithoutAbsent(order, key);
    }
  }

  lemma WithoutAtKeeps<K>(order: seq<K>, i: nat)
    requires Distinct(order) && i < |order|
    ensures var rest := Without(order, order[i]);
            && |rest| == |order| - 1 && Distinct(rest) && order[i] !in rest
            && (forall k :: k in rest ==> k in order)
            && (forall k :: k in order && k != order[i] ==> k in rest)
  {
    WithoutElements(order, i);
    RestOf(order, i, Without(order, order[i]));
  }

  lemma WithoutElements<K>(order: seq<K>, i: nat)
    requires Distinct(order) && i < |order|
    ensures var rest := Without(order, order[i]);
            |rest| == |order| - 1 && forall k :: 0 <= k < |rest| ==> rest[k] == order[if k < i then k else k + 1]
  {
    WithoutAt(order, i);
  }

  lemma RestOf<K>(order: seq<K>, i: nat, rest: seq<K>)
    requires Distinct(order) && i < |order| && |rest| == |order| - 1
    requires forall k :: 0 <= k < |rest| ==> rest[k] == order[if k < i then k else k + 1]
    ensures Distinct(rest) && order[i] !in rest
    ensures forall k :: k in rest ==> k in order
    ensures forall k :: k in order && k != order[i] ==> k in rest
  {
    forall k | k in order && k != order[i]
      ensures k in rest
    {
      var j :| 0 <= j < |order| && order[j] == k;
      assert rest[if j < i then j else j - 1] == k;
    }
  }

  lemma {:induction false} WithoutAt<K>(order: seq<K>, i: nat)
    requires Distinct(order) && i < |order|
    ensures Without(order, order[i]) == order[..i] + order[i + 1..]
  {
    if i > 0 {
      WithoutAt(order[1..], i - 1);
      assert order[..i] == [order[0]] + order[1..][..i - 1];
    }
  }

  lemma {:induction false} WithoutAbsent<K>(order: seq<K>, key: K)
    requires key !in order
    ensures Without(order, key) == order
  {
    if order != [] {
      WithoutAbsent(order[1..], key);
    }
  }

  // ---------------------------------------------------------------------------------------------
  // Runs
  // ---------------------------------------------------------------------------------------------

  datatype Op<K, V> = Get(key: K) | Put(key: K, val: V) | SetCapacity(capacity: nat) | Clear

  function Step<K(==), V>(c: Recency<K, V>, op: Op<K, V>): Recency<K, V> {
    match op
    case Get(key) => AfterGet(c, key)
    case Put(key, val) => AfterPut(c, key, val)
    case SetCapacity(capacity) => Trim(c.(capacity := capacity))
    case Clear => c.(order := [], values := map[])
  }

  function Run<K(==), V>(capacity: nat, ops: seq<Op<K, V>>): Recency<K, V> {
    if ops == [] then Recency(capacity, [], map[])
    else Step(Run(capacity, ops[..|ops| - 1]), ops[|ops| - 1])
  }

  lemma TrimIsConsistent<K, V>(c: Recency<K, V>)
    requires Linked(c)
    ensures Consistent(Trim(c))
  {
  }

  lemma StepKeepsConsistent<K, V>(c: Recency<K, V>, op: Op<K, V>)
    requires Consistent(c)
    ensures Consistent(Step(c, op))
  {
    match op
    case Get(key) =>
      ToFrontKeeps(c.order, key);
    case Put(key, val) =>
      ToFrontKeeps(c.order, key);
      TrimIsConsistent(c.(order := ToFront(c.order, key), values := c.values[key := val]));
    case SetCapacity(capacity) =>
      TrimIsConsistent(c.(capacity := capacity));
    case Clear =>
  }

  /** After any run, list and map hold the same keys, each once, and no more than the capacity. */
  lemma {:induction false} RunKeepsConsistent<K, V>(capacity: nat, ops: seq<Op<K, V>>)
    ensures Consistent(Run(capacity, ops))
  {
    if ops != [] {
      RunKeepsConsistent(capacity, ops[..|ops| - 1]);
      StepKeepsConsistent(Run(capacity, ops[..|ops| - 1]), ops[|ops| - 1]);
    }
  }

  /** The value last put under a key since the cache was last cleared. */
  function LastPut<K(==), V>(ops: seq<Op<K, V>>, key: K): Option<V> {
    if ops == [] then None
    else
      var last := ops[|ops| - 1];
      if last.Put? && last.key == key then Some(last.val)
      else if last.Clear? then None
      else LastPut(ops[..|ops| - 1], key)
  }

  /** Whatever was evicted on the way: a hit gives the last value put. */
  lemma {:induction false} HitReturnsLastPut<K, V>(capacity: nat, ops: seq<Op<K, V>>, key: K)
    requires Lookup(Run(capacity, ops), key).Some?
    ensures Lookup(Run(capacity, ops), key) == LastPut(ops, key)
  {
    if ops != [] {
      var last := ops[|ops| - 1];
      if !last.Clear? && !(last.Put? && last.key == key) {
        HitReturnsLastPut(capacity, ops[..|ops| - 1], key);
      }
    }
  }

  ghost predicate FixedCapacity<K, V>(ops: seq<Op<K, V>>) {
    forall op :: op in ops ==> !op.SetCapacity?
  }

  /** The keys used since the last clearing, in order: a put is a use, and so is a get that hits. */
  function Uses<K(==), V>(capacity: nat, ops: seq<Op<K, V>>): seq<K> {
    if ops == [] then []
    else
      var before := ops[..|ops| - 1];
      match ops[|ops| - 1]
      case Get(key) =>
        if Lookup(Run(capacity, before), key).Some? then Uses(capacity, before) + [key] else Uses(capacity, before)
      case Put(key, _) => Uses(capacity, before) + [key]
      case SetCapacity(_) => Uses(capacity, before)
      case Clear => []
  }

  /** The other keys used after the last use of a key. */
  function OthersSince<K(==)>(uses: seq<K>, key: K): set<K> {
    if uses == [] || uses[|uses| - 1] == key then {}
    else {uses[|uses| - 1]} + OthersSince(uses[..|uses| - 1], key)
  }

  /** All keys ever used, most recently used first. */
  function Recent<K(==)>(uses: seq<K>): seq<K> {
    if uses == [] then [] else ToFront(Recent(uses[..|uses| - 1]), uses[|uses| - 1])
  }

  function Elements<K(==)>(s: seq<K>): set<K> {
    set k | k in s
  }

  lemma {:induction false} RecentIsDistinct<K>(uses: seq<K>)
    ensures Distinct(Recent(uses))
    ensures forall k :: k in Recent(uses) ==> k in uses
    ensures forall k :: k in uses ==> k in Recent(uses)
  {
    if uses != [] {
      RecentIsDistinct(uses[..|uses| - 1]);
      ToFrontKeeps(Recent(uses[..|uses| - 1]), uses[|uses| - 1]);
      assert uses == uses[..|uses| - 1] + [uses[|uses| - 1]];
    }
  }

  lemma KeptToFrontFound<K>(capacity: nat, order: seq<K>, i: nat)
    requires Distinct(order) && 0 < capacity < |order| && i < |order|
    ensures Kept(capacity, ToFront(order[..capacity], order[i])) == Kept(capacity, ToFront(order, order[i]))
  {
    if i < capacity {
      KeptToFrontEarly(capacity, order, i);
    } else {
      KeptToFrontLate(capacity, order, i);
    }
  }

  lemma KeptToFrontEarly<K>(capacity: nat, order: seq<K>, i: nat)
    requires Distinct(order) && i < capacity < |order|
    ensures |ToFront(order[..capacity], order[i])| == capacity && |ToFront(order, order[i])| == |order|
    ensures ToFront(order[..capacity], order[i]) == ToFront(order, order[i])[..capacity]
  {
    ToFrontAt(order, i);
    ToFrontAt(order[..capacity], i);
  }

  lemma KeptToFrontLate<K>(capacity: nat, order: seq<K>, i: nat)
    requires Distinct(order) && 0 < capacity <= i < |order|
    ensures |ToFront(order[..capacity], order[i])| == capacity + 1 && |ToFront(order, order[i])| == |order|
    ensures ToFront(order[..capacity], order[i])[..capacity] == ToFront(order, order[i])[..capacity]
  {
    WithoutAt(order, i);
    WithoutAbsent(order[..capacity], order[i]);
  }

  /** Forgetting the keys beyond the capacity early or late makes no difference to the next use. */
  lemma KeptToFront<K>(capacity: nat, order: seq<K>, key: K)
    requires Distinct(order)
    ensures Kept(capacity, ToFront(Kept(capacity, order), key)) == Kept(capacity, ToFront(order, key))
  {
    if 0 < capacity < |order| {
      if key in order {
        var i :| 0 <= i < |order| && order[i] == key;
        KeptToFrontFound(capacity, order, i);
      } else {
        WithoutAbsent(order, key);
        WithoutAbsent(order[..capacity], key);
        assert ([key] + order)[..capacity] == ([key] + order[..capacity])[..capacity];
      }
    }
  }

  /** The list is the most recently used keys, as many as the capacity allows. */
  lemma {:induction false} OrderIsRecent<K, V>(capacity: nat, ops: seq<Op<K, V>>)
    requires FixedCapacity(ops)
    ensures Run(capacity, ops).capacity == capacity
    ensures Run(capacity, ops).order == Kept(capacity, Recent(Uses(capacity, ops)))
  {
    if ops != [] {
      var before, last := ops[..|ops| - 1], ops[|ops| - 1];
      var c, uses := Run(capacity, before), Uses(capacity, before);
      OrderIsRecent(capacity, before);
      RunKeepsConsistent(capacity, before);
      assert last in ops;
      if !last.Clear? {
        assert (uses + [last.key])[..|uses|] == uses;
        RecentIsDistinct(uses);
        KeptToFront(capacity, Recent(uses), last.key);
        ToFrontKeeps(c.order, last.key);
      }
    }
  }

  lemma {:induction false} SizeOfDistinct<K>(s: seq<K>)
    requires Distinct(s)
    ensures |Elements(s)| == |s|
  {
    if s != [] {
      SizeOfDistinct(s[1..]);
      assert Elements(s) == {s[0]} + Elements(s[1..]);
      assert s[0] !in Elements(s[1..]);
    }
  }

  /** A key ahead of x moves back by one place less than it would if x were new. */
  lemma BehindMoved<K>(order: seq<K>, i: nat, j: nat)
    requires Distinct(order) && j < i < |order|
    ensures |ToFront(order, order[j])| > i && ToFront(order, order[j])[i] == order[i]
    ensures Elements(ToFront(order, order[j])[..i]) == Elements(order[..i]) + {order[j]}
  {
    WithoutAt(order, j);
    assert ToFront(order, order[j])[..i] == [order[j]] + order[..j] + order[j + 1..i];
    assert order[..i] == order[..j] + [order[j]] + order[j + 1..i];
  }

  /** A key from further back, or a new one, comes in front. */
  lemma BehindNew<K>(order: seq<K>, x: K, i: nat)
    requires Distinct(order) && i < |order| && forall j :: 0 <= j <= i ==> order[j] != x
    ensures |ToFront(order, x)| > i + 1 && ToFront(order, x)[i + 1] == order[i]
    ensures ToFront(order, x)[..i + 1] == [x] + order[..i]
    ensures Elements(ToFront(order, x)[..i + 1]) == Elements(order[..i]) + {x}
  {
    if x in order {
      var j :| 0 <= j < |order| && order[j] == x;
      WithoutAt(order, j);
    } else {
      WithoutAbsent(order, x);
    }
    assert ToFront(order, x)[..i + 1] == [x] + order[..i];
  }

  lemma ToFrontAhead<K>(order: seq<K>, x: K, i: nat) returns (at: nat)
    requires Distinct(order) && i < |order| && order[i] != x
    ensures at < |ToFront(order, x)| && ToFront(order, x)[at] == order[i]
    ensures Elements(ToFront(order, x)[..at]) == Elements(order[..i]) + {x}
  {
    ToFrontKeeps(order, x);
    if x in order[..i] {
      var j :| 0 <= j < i && order[j] == x;
      BehindMoved(order, i, j);
      at := i;
    } else {
      forall j | 0 <= j < i
        ensures order[j] != x
      {
        assert order[..i][j] == order[j];
      }
      BehindNew(order, x, i);
      at := i + 1;
    }
  }

  /** A key stands behind exactly the other keys used after it. */
  lemma {:induction false} PlaceInRecent<K>(uses: seq<K>, key: K) returns (at: nat)
    requires key in uses
    ensures at < |Recent(uses)| && Recent(uses)[at] == key
    ensures Elements(Recent(uses)[..at]) == OthersSince(uses, key)
  {
    var before, last := uses[..|uses| - 1], uses[|uses| - 1];
    if last == key {
      at := 0;
    } else {
      assert uses == before + [last];
      var i := PlaceInRecent(before, key);
      RecentIsDistinct(before);
      at := ToFrontAhead(Recent(before), last, i);
    }
  }

  /** With a fixed capacity a key is present exactly when it was used and fewer other keys than the capacity have
      been used since; without a limit, when it was used at all. */
  lemma PresentIff<K, V>(capacity: nat, ops: seq<Op<K, V>>, key: K)
    requires FixedCapacity(ops)
    ensures var uses := Uses(capacity, ops);
            Lookup(Run(capacity, ops), key).Some? <==>
            key in uses && (capacity == 0 || |OthersSince(uses, key)| < capacity)
  {
    var uses := Uses(capacity, ops);
    var recent := Recent(uses);
    RunKeepsConsistent(capacity, ops);
    OrderIsRecent(capacity, ops);
    RecentIsDistinct(uses);
    if key in uses {
      var at := PlaceInRecent(uses, key);
      SizeOfDistinct(recent[..at]);
      if 0 < capacity < |recent| && at >= capacity {
        assert key !in recent[..capacity];
      }
    }
  }
}
