/** deprecated/map.c: open addressing with linear probing, tombstones for removed keys, and a list
    in insertion order threaded through the buckets. */
module HashMaps {
  import opened Bytes
  import opened OrderedMap
  import opened Buckets

  const DEFAULT_CAPACITY := 20
  const RESIZE_FACTOR := 2
  const ITERATE_LIMIT := 1002

  function Power2(n: nat): (r: nat)
    ensures r >= 1
  {
    if n == 0 then 1 else 2 * Power2(n - 1)
  }

  /** Doubling an array that a further entry would overload leaves plenty of room, and the entries
      moved so far stay within what has been inserted. */
  lemma Doubled(p: nat, capacity: nat, count: int, inserted: nat, copied: nat, live: nat)
    requires capacity == DEFAULT_CAPACITY * p && p >= 1
    requires 4 * count <= 3 * capacity < 4 * (count + 1) && count <= inserted
    requires copied <= 15 * p - 15 && live <= count
    ensures count == 15 * p
    ensures 2 * capacity == DEFAULT_CAPACITY * (2 * p)
    ensures 4 * (live + 1) <= 3 * (2 * capacity)
    ensures copied + live <= 15 * (2 * p) - 15 && 15 * (2 * p) <= 2 * inserted
  {}

  class HashMap {
    const hash: HashFn
    var buckets: array<Bucket>
    var block: nat              // names the allocation behind `buckets`
    var capacity: nat
    var count: int
    var tombstones: int
    var first: Ptr
    var last: Ptr

    ghost var order: seq<nat>   // the list from `first` to `last`, as slot numbers
    ghost var resizes: nat
    ghost var copied: nat       // entries moved by all resizes so far
    ghost var inserted: nat     // fresh insertions so far

    /** The table proper: slots, probe paths and the list. */
    ghost predicate Table()
      reads this, buckets
    {
      && buckets.Length == capacity
      && Sound(buckets[..], order, hash)
      && Linked(buckets[..], order, block, first, last, Null)
      && count == |order|
      && tombstones == |order| - |Pairs(buckets[..], order)|
    }

    /** The load factor and the price paid for it. */
    ghost predicate Balanced()
      reads this
    {
      && capacity == DEFAULT_CAPACITY * Power2(resizes)
      && 4 * count <= 3 * capacity
      && count <= inserted
      && copied <= 15 * Power2(resizes) - 15
      && (resizes > 0 ==> 15 * Power2(resizes) <= 2 * inserted)
    }

    ghost predicate Valid()
      reads this, buckets
    {
      Table() && Balanced()
    }

    /** The map as its user sees it. */
    ghost function Entries(): seq<Pair>
      requires InRange(buckets[..], order)
      reads this, buckets
    {
      Pairs(buckets[..], order)
    }

    /** What the invariant says about load and moves. */
    lemma Bounds()
      requires Valid()
      ensures 0 <= capacity == DEFAULT_CAPACITY * Power2(resizes)
      ensures |Entries()| <= count && 4 * count <= 3 * capacity
      ensures copied == 0 || copied < 2 * inserted
    {}

    constructor (hash: HashFn)
      ensures Valid() && fresh(buckets)
      ensures this.hash == hash && Entries() == []
      ensures resizes == copied == inserted == 0
    {
      this.hash := hash;
      capacity, count, tombstones := DEFAULT_CAPACITY, 0, 0;
      buckets := new Bucket[DEFAULT_CAPACITY](_ => ZEROED);
      block := 0;
      first, last := Null, Head;
      order, resizes, copied, inserted := [], 0, 0, 0;
      new;
      assert forall i :: 0 <= i < buckets.Length ==> buckets[i] == ZEROED;
    }

    /** `find_entry`: the live slot of the key, or the free slot where it would go. */
    method FindEntry(key: Key) returns (e: nat)
      requires Valid()
      ensures Hit(buckets[..], order, hash, key.bytes, e)
    {
      var h := hash(key.bytes);
      e := h % capacity;
      ghost var bs, home, p := buckets[..], e, 0;
      SomeFree(bs, order, hash);
      ghost var free :| 0 <= free < |bs| && Free(bs[free]);
      while !Stops(buckets[e], key.bytes, h)
        invariant 0 <= p < |bs| && e == Probe(home, p, |bs|)
        invariant Passed(bs, home, p, key.bytes)
        decreases |bs| - p
      {
        assert Placed(bs, hash, e);
        StillAhead(bs, hash, home, p, key.bytes, free);
        e, p := After(e, capacity), p + 1;
      }
      if bs[e].key.None? { AbsentKey(bs, order, hash, key.bytes, home, p); }
    }

    /** `m->last->next = p`, through the imaginary bucket while the list is empty. */
    method SetLastNext(p: Ptr)
      requires last == Head || (last.Slot? && last.index < buckets.Length)
      modifies this`first, buckets
      ensures last == Head ==> first == p
      ensures last != Head ==> first == old(first)
      ensures buckets[..] == Hang(old(buckets[..]), last, p)
    {
      if last == Head {
        first := p;
      } else {
        buckets[last.index] := buckets[last.index].(next := p);
      }
    }

    /** `m->last->next`. */
    method LastNext(ghost tail: Ptr) returns (p: Ptr)
      requires InRange(buckets[..], order) && Linked(buckets[..], order, block, first, last, tail)
      ensures p == tail
    {
      if last == Head {
        p := first;
      } else {
        assert Leads(buckets[..], order, block, tail, |order| - 1);
        p := buckets[last.index].next;
      }
    }

    /** `resize_entry`: copies an old bucket, stale `next` and all, into the first slot with no key. */
    method ResizeEntry(entry: Bucket) returns (e: nat)
      requires buckets.Length == capacity && Sound(buckets[..], order, hash)
      requires |Pairs(buckets[..], order)| == |order| < capacity
      requires entry.key.Some? && entry.hash == hash(entry.key.value.bytes)
      requires !Has(Entries(), entry.key.value.bytes)
      modifies buckets
      ensures e < buckets.Length && Free(old(buckets[..])[e])
      ensures Hit(old(buckets[..]), order, hash, entry.key.value.bytes, e)
      ensures buckets[..] == old(buckets[..])[e := entry]
    {
      ghost var bs, bytes := buckets[..], entry.key.value.bytes;
      e := entry.hash % capacity;
      ghost var home, p := e, 0;
      SomeFree(bs, order, hash);
      ghost var free :| 0 <= free < |bs| && Free(bs[free]);
      while buckets[e].key.Some?
        invariant 0 <= p < |bs| && e == Probe(home, p, |bs|)
        invariant Passed(bs, home, p, bytes)
        invariant buckets[..] == bs
        decreases |bs| - p
      {
        assert Placed(bs, hash, e);
        NowhereMeansMiss(bs, order, hash, bytes, e);
        StillAhead(bs, hash, home, p, bytes, free);
        e, p := After(e, capacity), p + 1;
      }
      if Listed(order, e) {
        ghost var j :| 0 <= j < |order| && order[j] == e;
        NoneDead(bs, order, j);
      }
      AbsentKey(bs, order, hash, bytes, home, p);
      buckets[e] := entry;
    }

    /** The state of the rehash loop after k old buckets. */
    ghost predicate Rehashing(olds: seq<Bucket>, was: seq<nat>, oldBlock: nat, k: nat)
      reads this, buckets
    {
      && buckets.Length == capacity && |was| < capacity && |order| <= k <= |was|
      && Sound(olds, was, hash)
      && Linked(olds, was, oldBlock, At(was, 0, oldBlock, Null), EndOf(was, oldBlock), Null)
      && Moving(buckets[..], order, hash, block, first, last, olds, was, oldBlock, k)
    }

    /** `m->last->next = current->next`, past a tombstone. */
    method SkipTombstone(entry: Bucket, ghost olds: seq<Bucket>, ghost was: seq<nat>, ghost oldBlock: nat, ghost k: nat)
      requires Rehashing(olds, was, oldBlock, k) && k < |was|
      requires entry == olds[was[k]] && entry.key.None?
      modifies this`first, buckets
      ensures Rehashing(olds, was, oldBlock, k + 1)
    {
      ghost var bs := buckets[..];
      assert Leads(olds, was, oldBlock, Null, k);
      SetLastNext(entry.next);
      SkipOne(bs, buckets[..], order, hash, block, old(first), last, entry.next, olds, was, oldBlock, k);
    }

    /** `m->last->next = resize_entry(m, m->last->next); m->last = m->last->next`. */
    method MoveEntry(entry: Bucket, ghost olds: seq<Bucket>, ghost was: seq<nat>, ghost oldBlock: nat, ghost k: nat)
      requires Rehashing(olds, was, oldBlock, k) && k < |was|
      requires entry == olds[was[k]] && entry.key.Some?
      modifies this`first, this`last, this`order, buckets
      ensures Rehashing(olds, was, oldBlock, k + 1)
    {
      ghost var bs := buckets[..];
      assert Leads(olds, was, oldBlock, Null, k);
      NextIsNew(olds, was, hash, k);
      var e := ResizeEntry(entry);
      ghost var cs := Hang(bs[e := entry], last, Slot(block, e));
      MoveFilled(bs, cs, order, hash, block, first, last, olds, was, oldBlock, k, e, entry);
      SetLastNext(Slot(block, e));
      last := Slot(block, e);
      order := order + [e];
    }

    /** `hashmap_resize`: doubles the array, walking the old list and relinking it in place. */
    method Resize()
      requires Valid() && 4 * (count + 1) > 3 * capacity
      modifies this, buckets
      ensures Valid() && fresh(buckets)
      ensures Entries() == old(Entries())
      ensures tombstones == 0 && capacity == 2 * old(capacity)
      ensures resizes == old(resizes) + 1 && inserted == old(inserted)
      ensures copied == old(copied) + |Entries()|
    {
      ghost var was, bs, n := order, buckets[..], count;
      Doubled(Power2(resizes), capacity, n, inserted, copied, |Entries()|);
      Rehash();
      copied := copied + count;
      resizes := resizes + 1;
      assert Table();
      assert Balanced() by { assert Power2(resizes) == 2 * Power2(resizes - 1); }
    }

    /** The larger, zeroed array; `first` still leads into the old one. */
    method Allocate()
      requires Table() && 0 < count < 2 * capacity
      modifies this`buckets, this`capacity, this`block, this`last, this`count, this`tombstones, this`order
      ensures fresh(buckets) && capacity == 2 * old(capacity) && order == []
      ensures Rehashing(old(buckets[..]), old(order), old(block), 0)
      ensures tombstones == 0 && count == |Pairs(old(buckets[..]), old(order))|
    {
      ghost var was, olds, oldBlock := order, buckets[..], block;
      capacity := capacity * RESIZE_FACTOR;
      buckets := new Bucket[capacity](_ => ZEROED);
      block := block + 1;
      last := Head;
      count := count - tombstones;
      tombstones := 0;
      order := [];
      MoveStart(buckets[..], hash, block, first, olds, was, oldBlock);
    }

    method Rehash()
      requires Table() && 0 < count < 2 * capacity
      modifies this`buckets, this`capacity, this`block, this`first, this`last, this`count, this`tombstones, this`order
      ensures Table() && fresh(buckets)
      ensures Entries() == old(Entries())
      ensures tombstones == 0 && count == |order| && capacity == 2 * old(capacity)
    {
      var oldBuckets := buckets;
      ghost var was, olds, oldBlock, k := order, buckets[..], block, 0;
      Allocate();
      var more := true;
      while more
        invariant fresh(buckets) && oldBuckets[..] == olds
        invariant Rehashing(olds, was, oldBlock, k) && more == (k < |was|)
        invariant capacity == 2 * old(capacity) && tombstones == 0 && count == |Pairs(olds, was)|
        decreases |was| - k
      {
        more := RehashOne(oldBuckets, was, oldBlock, k);
        k := k + 1;
      }
      assert was[..|was|] == was;
    }

    /** One round of the rehash loop. */
    method RehashOne(oldBuckets: array<Bucket>, ghost was: seq<nat>, ghost oldBlock: nat, ghost k: nat)
      returns (more: bool)
      requires Rehashing(oldBuckets[..], was, oldBlock, k) && k < |was| && buckets != oldBuckets
      modifies this`first, this`last, this`order, buckets
      ensures Rehashing(oldBuckets[..], was, oldBlock, k + 1) && more == (k + 1 < |was|)
    {
      ghost var olds := oldBuckets[..];
      var current := LastNext(At(was, k, oldBlock, Null));
      var entry := oldBuckets[current.index];
      assert entry == olds[was[k]];
      if entry.key.None? {
        SkipTombstone(entry, olds, was, oldBlock, k);
      } else {
        MoveEntry(entry, olds, was, oldBlock, k);
      }
      var next := LastNext(At(was, k + 1, oldBlock, Null));
      more := next != Null;
    }

    /** The common tail of the three setters: a new pair at the end of the list. */
    method Insert(e: nat, key: Key, value: nat)
      requires Valid() && 4 * (count + 1) <= 3 * capacity
      requires Hit(buckets[..], order, hash, key.bytes, e) && Free(buckets[e])
      modifies this, buckets
      ensures Valid() && buckets == old(buckets)
      ensures Entries() == old(Entries()) + [Pair(key, value)]
      ensures resizes == old(resizes) && copied == old(copied) && inserted == old(inserted) + 1
    {
      HangUp(e, key, value);
      inserted := inserted + 1;
    }

    /** The bucket is filled and linked behind the last one. */
    method HangUp(e: nat, key: Key, value: nat)
      requires Table()
      requires Hit(buckets[..], order, hash, key.bytes, e) && Free(buckets[e])
      modifies this`first, this`last, this`count, this`order, buckets
      ensures Table() && count == old(count) + 1
      ensures Entries() == old(Entries()) + [Pair(key, value)]
    {
      ghost var bs, b := buckets[..], Bucket(Null, Some(key), |key.bytes|, hash(key.bytes), value);
      ghost var cs := Hang(bs, last, Slot(block, e))[e := b];
      Appended(bs, cs, order, hash, e, b, block, first, last, Null);
      SetLastNext(Slot(block, e));
      last := Slot(block, e);
      buckets[e] := Bucket(Null, Some(key), |key.bytes|, hash(key.bytes), value);
      assert buckets[..] == cs;
      count := count + 1;
      order := order + [e];
    }

    /** The check every setter starts with; `resizes` grows only when the array is full enough. */
    method MakeRoom()
      requires Valid()
      modifies this, buckets
      ensures Valid() && 4 * (count + 1) <= 3 * capacity
      ensures buckets == old(buckets) || fresh(buckets)
      ensures Entries() == old(Entries()) && inserted == old(inserted)
    {
      if 4 * (count + 1) > 3 * capacity {
        Resize();
      }
    }

    /** Overwrites the pair in a live slot. */
    method Overwrite(e: nat, key: Key, value: nat)
      requires Valid() && e < buckets.Length && buckets[e].key.Some? && buckets[e].key.value.bytes == key.bytes
      modifies buckets
      ensures Valid()
      ensures var es, i := old(Entries()), IndexOf(old(Entries()), key.bytes);
        i < |es| && [es[i]] == One(old(buckets[e])) && Entries() == es[i := Pair(key, value)]
    {
      ghost var bs := buckets[..];
      buckets[e] := buckets[e].(key := Some(key), value := value);
      Rewrite(bs, buckets[e], order, hash, e);
      KeepsLinks(bs, buckets[e], order, e, block, first, last, Null);
      assert buckets[..] == bs[e := buckets[e]];
    }

    /** Turns a live slot into a tombstone. */
    method Discard(e: nat)
      requires Valid() && e < buckets.Length && buckets[e].key.Some?
      modifies this`tombstones, buckets
      ensures Valid()
      ensures var es, i := old(Entries()), IndexOf(old(Entries()), old(buckets[e]).key.value.bytes);
        i < |es| && [es[i]] == One(old(buckets[e])) && Entries() == es[..i] + es[i + 1..]
    {
      ghost var bs := buckets[..];
      buckets[e] := buckets[e].(key := None, value := TOMBSTONE_VALUE);
      Bury(bs, buckets[e], order, hash, e);
      KeepsLinks(bs, buckets[e], order, e, block, first, last, Null);
      assert buckets[..] == bs[e := buckets[e]];
      tombstones := tombstones + 1;
    }

    /** `hashmap_set`. */
    method Set(key: Key, value: nat)
      requires Valid()
      modifies this, buckets
      ensures Valid() && (buckets == old(buckets) || fresh(buckets))
      ensures Entries() == Next(old(Entries()), Op.Set(key, value))
      ensures inserted == old(inserted) + if Has(old(Entries()), key.bytes) then 0 else 1
    {
      MakeRoom();
      var e := FindEntry(key);
      if buckets[e].key.None? {
        Insert(e, key, value);
      } else {
        Overwrite(e, buckets[e].key.value, value);
      }
    }

    /** `hashmap_get_set`: the new content of `*out_in`, and whether the key was there. */
    method GetSet(key: Key, value: nat) returns (existed: bool, out: nat)
      requires Valid()
      modifies this, buckets
      ensures Valid() && (buckets == old(buckets) || fresh(buckets))
      ensures Entries() == Next(old(Entries()), Op.GetSet(key, value))
      ensures Found(existed, out) == Answer(old(Entries()), Op.GetSet(key, value))
      ensures inserted == old(inserted) + if existed then 0 else 1
    {
      MakeRoom();
      var e := FindEntry(key);
      if buckets[e].key.None? {
        Insert(e, key, value);
        return false, value;
      }
      ghost var j := Located(buckets[..], order, hash, e);
      return true, buckets[e].value;
    }

    /** `hashmap_set_free`: the calls made to the callback. */
    method SetFree(key: Key, value: nat) returns (calls: seq<Pair>)
      requires Valid()
      modifies this, buckets
      ensures Valid() && (buckets == old(buckets) || fresh(buckets))
      ensures Entries() == Next(old(Entries()), Op.SetFree(key, value))
      ensures Called(calls) == Answer(old(Entries()), Op.SetFree(key, value))
      ensures inserted == old(inserted) + if calls == [] then 1 else 0
    {
      MakeRoom();
      var e := FindEntry(key);
      if buckets[e].key.None? {
        Insert(e, key, value);
        return [];
      }
      calls := [Pair(buckets[e].key.value, buckets[e].value)];
      Overwrite(e, key, value);
    }

    /** `hashmap_get`: whether the key is there, and `*out_val`. */
    method Get(key: Key) returns (present: bool, out: nat)
      requires Valid()
      ensures Found(present, out) == Answer(Entries(), Op.Get(key))
    {
      var e := FindEntry(key);
      if buckets[e].key.Some? {
        ghost var j := Located(buckets[..], order, hash, e);
      }
      return buckets[e].key.Some?, buckets[e].value;
    }

    /** `hashmap_remove`. */
    method Remove(key: Key)
      requires Valid()
      modifies this`tombstones, buckets
      ensures Valid()
      ensures Entries() == Next(old(Entries()), Op.Remove(key))
    {
      var e := FindEntry(key);
      if buckets[e].key.Some? {
        Discard(e);
      }
    }

    /** `hashmap_remove_free`: the calls made to the callback. */
    method RemoveFree(key: Key) returns (calls: seq<Pair>)
      requires Valid()
      modifies this`tombstones, buckets
      ensures Valid()
      ensures Entries() == Next(old(Entries()), Op.RemoveFree(key))
      ensures Called(calls) == Answer(old(Entries()), Op.RemoveFree(key))
    {
      calls := [];
      var e := FindEntry(key);
      if buckets[e].key.Some? {
        calls := [Pair(buckets[e].key.value, buckets[e].value)];
        Discard(e);
      }
    }

    /** `hashmap_size`. */
    method Size() returns (n: int)
      requires Valid()
      ensures n == |Entries()|
    {
      n := count - tombstones;
    }

    /** The walk along the list: nodes past the first 1002 are never visited. */
    method Walk() returns (calls: seq<Pair>)
      requires InRange(buckets[..], order) && Linked(buckets[..], order, block, first, last, Null)
      ensures calls == Pairs(buckets[..], order[..Visited(|order|)])
    {
      calls := [];
      var current, co := first, 0;
      ghost var bs, k := buckets[..], 0;
      while current != Null
        invariant k <= |order| && co == k && k <= ITERATE_LIMIT
        invariant current == At(order, k, block, Null)
        invariant calls == Pairs(bs, order[..k])
        decreases |order| - k
      {
        OneNode(bs, order, block, first, last, k);
        var entry := buckets[current.index];
        if entry.key.Some? {
          calls := calls + [Pair(entry.key.value, entry.value)];
        }
        current := entry.next;
        k := k + 1;
        if co > 1000 {
          break;
        }
        co := co + 1;
      }
    }

    /** `hashmap_iterate`: the calls made to the callback are the live pairs among the first 1002 nodes, in
        order, so they cover the map exactly when only tombstones lie beyond. */
    method Iterate() returns (calls: seq<Pair>)
      requires Valid()
      ensures calls == Pairs(buckets[..], order[..Visited(|order|)]) <= Entries()
      ensures calls == Entries() <==>
        forall j :: ITERATE_LIMIT <= j < |order| ==> buckets[order[j]].key.None?
      ensures |calls| <= ITERATE_LIMIT
    {
      calls := Walk();
      VisitedPrefix(buckets[..], order, Visited(|order|));
    }
  }

  /** The k-th node of the list: where it is, where it leads, and what it adds to the pairs. */
  lemma {:induction false} OneNode(bs: seq<Bucket>, order: seq<nat>, block: nat, first: Ptr, last: Ptr, k: nat)
    requires InRange(bs, order) && Linked(bs, order, block, first, last, Null) && k < |order|
    ensures At(order, k, block, Null) == Slot(block, order[k]) && order[k] < |bs|
    ensures bs[order[k]].next == At(order, k + 1, block, Null)
    ensures Pairs(bs, order[..k + 1]) == Pairs(bs, order[..k]) + One(bs[order[k]])
  {
    assert Leads(bs, order, block, Null, k);
    PairsLast(bs, order[..k], order[k], order[..k + 1]);
  }

  /** How many nodes of a list of n the iteration visits. */
  function Visited(n: nat): nat {
    if n < ITERATE_LIMIT then n else ITERATE_LIMIT
  }

  /** What a walk over the first k nodes shows, against the whole map. */
  lemma {:induction false} VisitedPrefix(bs: seq<Bucket>, order: seq<nat>, k: nat)
    requires InRange(bs, order) && k <= |order|
    ensures Pairs(bs, order[..k]) <= Pairs(bs, order)
    ensures Pairs(bs, order[..k]) == Pairs(bs, order) <==>
      forall j :: k <= j < |order| ==> bs[order[j]].key.None?
  {
    if k == |order| {
      assert order[..k] == order;
    } else {
      var front := order[..|order| - 1];
      VisitedPrefix(bs, front, k);
      assert front[..k] == order[..k];
    }
  }

  // ---- Whole runs --------------------------------------------------------------------------------

  /** How many calls of a run put a new key into the map. */
  function FreshInsertions(ops: seq<Op>): nat {
    if ops == [] then 0
    else
      var before, op := ops[..|ops| - 1], ops[|ops| - 1];
      FreshInsertions(before) + if Inserts(op) && !Has(Contents(before), op.key.bytes) then 1 else 0
  }

  /** One call of a run. */
  method Perform(m: HashMap, op: Op) returns (out: Outcome)
    requires m.Valid()
    modifies m, m.buckets
    ensures m.Valid() && (m.buckets == old(m.buckets) || fresh(m.buckets))
    ensures m.Entries() == Next(old(m.Entries()), op)
    ensures out == Answer(old(m.Entries()), op)
    ensures m.inserted == old(m.inserted) + if Inserts(op) && !Has(old(m.Entries()), op.key.bytes) then 1 else 0
  {
    out := Done;
    match op
    case Set(k, v) => m.Set(k, v);
    case GetSet(k, v) =>
      var existed, v' := m.GetSet(k, v);
      out := Found(existed, v');
    case SetFree(k, v) =>
      var calls := m.SetFree(k, v);
      out := Called(calls);
    case Get(k) =>
      var present, v' := m.Get(k);
      out := Found(present, v');
    case Remove(k) => m.Remove(k);
    case RemoveFree(k) =>
      var calls := m.RemoveFree(k);
      out := Called(calls);
    case Size =>
      var n := m.Size();
      out := Count(n);
  }

  /** The map is what the first n calls of a run make of a new one. */
  ghost predicate Stage(m: HashMap, ops: seq<Op>, n: nat, outs: seq<Outcome>)
    requires n <= |ops|
    reads m, m.buckets
  {
    && m.Valid() && m.Entries() == Contents(ops[..n]) && outs == Outcomes(ops[..n])
    && m.inserted == FreshInsertions(ops[..n])
  }

  method PerformNext(m: HashMap, ops: seq<Op>, n: nat, before: seq<Outcome>) returns (outs: seq<Outcome>)
    requires n < |ops| && Stage(m, ops, n, before)
    modifies m, m.buckets
    ensures Stage(m, ops, n + 1, outs) && (m.buckets == old(m.buckets) || fresh(m.buckets))
  {
    OneMore(ops, n);
    var out := Perform(m, ops[n]);
    outs := before + [out];
  }

  /** The calls of a run on a new map, one after the other. */
  method PerformAll(m: HashMap, ops: seq<Op>) returns (outs: seq<Outcome>)
    requires Stage(m, ops, 0, [])
    modifies m, m.buckets
    ensures Stage(m, ops, |ops|, outs)
  {
    outs := [];
    for n := 0 to |ops|
      invariant Stage(m, ops, n, outs) && (m.buckets == old(m.buckets) || fresh(m.buckets))
    {
      outs := PerformNext(m, ops, n, outs);
    }
  }

  /** MAIN.  Whatever the hash function, collisions and resizes, a run of calls answers exactly as the
      insertion-ordered map does.  After it the capacity is 20 * 2^resizes, the list with its tombstones
      fills at most three quarters of it, and all resizes together moved fewer than twice the entries
      ever inserted. */
  method Replay(hash: HashFn, ops: seq<Op>)
    returns (outs: seq<Outcome>, capacity: nat, count: int, ghost resizes: nat, ghost copied: nat)
    ensures outs == Outcomes(ops)
    ensures capacity == DEFAULT_CAPACITY * Power2(resizes)
    ensures |Contents(ops)| <= count && 4 * count <= 3 * capacity
    ensures copied == 0 || copied < 2 * FreshInsertions(ops)
  {
    var m := new HashMap(hash);
    outs := PerformAll(m, ops);
    assert ops[..|ops|] == ops;
    m.Bounds();
    capacity, count, resizes, copied := m.capacity, m.count, m.resizes, m.copied;
  }

  lemma OneMore(ops: seq<Op>, n: nat)
    requires n < |ops|
    ensures Contents(ops[..n + 1]) == Next(Contents(ops[..n]), ops[n])
    ensures Outcomes(ops[..n + 1]) == Outcomes(ops[..n]) + [Answer(Contents(ops[..n]), ops[n])]
    ensures FreshInsertions(ops[..n + 1]) == FreshInsertions(ops[..n])
            + if Inserts(ops[n]) && !Has(Contents(ops[..n]), ops[n].key.bytes) then 1 else 0
  {
    assert ops[..n + 1][..n] == ops[..n];
  }

  /** A key of two bytes for each small number. */
  function TwoBytes(i: nat): Key
    requires i < 65536
  {
    Key(i, [i / 256, i % 256])
  }

  /** deprecated/map.h says iteration reaches every element; after 1003 insertions it does not. */
  method IterateFallsShort(hash: HashFn) returns (calls: seq<Pair>, size: int)
    ensures |calls| <= ITERATE_LIMIT && size == ITERATE_LIMIT + 1
  {
    var m := new HashMap(hash);
    for n := 0 to ITERATE_LIMIT + 1
      invariant fresh(m) && fresh(m.buckets) && m.Valid()
      invariant |m.Entries()| == n && Numbered(m.Entries())
    {
      NewNumber(m.Entries());
      m.Set(TwoBytes(n), 1);
    }
    calls := m.Iterate();
    size := m.Size();
  }

  ghost predicate Numbered(es: seq<Pair>) {
    |es| < 65536 && forall i :: 0 <= i < |es| ==> es[i].key == TwoBytes(i)
  }

  lemma NewNumber(es: seq<Pair>)
    requires Numbered(es) && |es| < 65535
    ensures !Has(es, TwoBytes(|es|).bytes)
    ensures Numbered(es + [Pair(TwoBytes(|es|), 1)])
  {
    var n := |es|;
    forall i | 0 <= i < n
      ensures es[i].key.bytes != TwoBytes(n).bytes
    {
      assert es[i].key.bytes[0] == i / 256 && es[i].key.bytes[1] == i % 256;
      assert TwoBytes(n).bytes[0] == n / 256 && TwoBytes(n).bytes[1] == n % 256;
    }
  }
}
