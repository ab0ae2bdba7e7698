/** The bucket array of deprecated/map.c as a value, and what keeps it a map.

    A bucket is free when its key is NULL and its value 0, live when it has a key, and a tombstone
    otherwise.  `order` is the list threaded through the buckets, as slot numbers from `first` to
    `last`; it includes the tombstones. */
module Buckets {
  import opened Bytes
  import opened OrderedMap
  import opened Counting

  /** A bucket pointer.  `Head` is the imaginary bucket whose `next` is the map's `first` field;
      `Slot` names a bucket by the allocation it lies in and its index there. */
  datatype Ptr = Null | Head | Slot(block: nat, index: nat)

  datatype Bucket = Bucket(next: Ptr, key: Option<Key>, ksize: nat, hash: nat, value: nat)

  type HashFn = seq<byte> -> nat

  const ZEROED := Bucket(Null, None, 0, 0, 0)
  const TOMBSTONE_VALUE := 0xDEAD

  predicate Free(b: Bucket) {
    b.key.None? && b.value == 0
  }

  predicate SameData(b: Bucket, c: Bucket) {
    b.key == c.key && b.ksize == c.ksize && b.hash == c.hash && b.value == c.value
  }

  // ---- Probing -------------------------------------------------------------------------------

  /** The slot looked at after p steps from `home`. */
  function Probe(home: nat, p: nat, cap: nat): (i: nat)
    requires home < cap && p < cap
    ensures i < cap
  {
    if home + p < cap then home + p else home + p - cap
  }

  /** How many steps lead from `home` to slot i. */
  function Steps(home: nat, i: nat, cap: nat): (p: nat)
    requires home < cap && i < cap
    ensures p < cap && Probe(home, p, cap) == i
  {
    if home <= i then i - home else i + cap - home
  }

  /** No free slot lies between `home` and i. */
  ghost predicate Reaches(bs: seq<Bucket>, home: nat, i: nat)
    requires home < |bs| && i < |bs|
  {
    forall p :: 0 <= p < Steps(home, i, |bs|) ==> !Free(bs[Probe(home, p, |bs|)])
  }

  // ---- Reading the list as an ordered map --------------------------------------------------------

  ghost predicate InRange(bs: seq<Bucket>, order: seq<nat>) {
    forall j :: 0 <= j < |order| ==> order[j] < |bs|
  }

  predicate Apart(order: seq<nat>, j: nat, k: nat)
    requires j < |order| && k < |order|
  {
    order[j] != order[k]
  }

  ghost predicate NoDup(order: seq<nat>) {
    forall j, k :: 0 <= j < k < |order| ==> Apart(order, j, k)
  }

  predicate Listed(order: seq<nat>, i: nat) {
    i in order
  }

  function One(b: Bucket): seq<Pair> {
    if b.key.Some? then [Pair(b.key.value, b.value)] else []
  }

  ghost function Pairs(bs: seq<Bucket>, order: seq<nat>): (es: seq<Pair>)
    requires InRange(bs, order)
    ensures |es| <= |order|
  {
    if order == [] then []
    else Pairs(bs, order[..|order| - 1]) + One(bs[order[|order| - 1]])
  }

  // ---- The invariants ------------------------------------------------------------------------------

  /** Everything about slot i that a lookup relies on. */
  ghost predicate Placed(bs: seq<Bucket>, hash: HashFn, i: nat)
    requires i < |bs|
  {
    bs[i].key.Some? ==>
      && bs[i].ksize == |bs[i].key.value.bytes|
      && bs[i].hash == hash(bs[i].key.value.bytes)
      && Reaches(bs, bs[i].hash % |bs|, i)
  }

  /** The list visits each non-free slot exactly once, live slots can be found from their home slot,
      and no two live slots hold the same key. */
  ghost predicate Sound(bs: seq<Bucket>, order: seq<nat>, hash: HashFn) {
    && InRange(bs, order)
    && NoDup(order)
    && (forall i {:trigger Listed(order, i)} :: 0 <= i < |bs| ==> (Listed(order, i) <==> !Free(bs[i])))
    && (forall i :: 0 <= i < |bs| ==> Placed(bs, hash, i))
    && Distinct(Pairs(bs, order))
  }

  /** The pointer to the j-th bucket of the list; past its end comes `tail`. */
  function At(order: seq<nat>, j: nat, block: nat, tail: Ptr): Ptr {
    if j < |order| then Slot(block, order[j]) else tail
  }

  function EndOf(order: seq<nat>, block: nat): Ptr {
    if order == [] then Head else Slot(block, order[|order| - 1])
  }

  ghost predicate Leads(bs: seq<Bucket>, order: seq<nat>, block: nat, tail: Ptr, j: nat)
    requires j < |order| && order[j] < |bs|
  {
    bs[order[j]].next == At(order, j + 1, block, tail)
  }

  /** `first`, `last` and the `next` fields spell out `order`, then `tail`. */
  ghost predicate Linked(bs: seq<Bucket>, order: seq<nat>, block: nat, first: Ptr, last: Ptr, tail: Ptr)
    requires InRange(bs, order)
  {
    && first == At(order, 0, block, tail)
    && last == EndOf(order, block)
    && (forall j :: 0 <= j < |order| ==> Leads(bs, order, block, tail, j))
  }

  /** What `find_entry` promises about the slot it returns. */
  ghost predicate Hit(bs: seq<Bucket>, order: seq<nat>, hash: HashFn, bytes: seq<byte>, e: nat)
    requires InRange(bs, order)
  {
    && e < |bs|
    && if bs[e].key.Some? then bs[e].key.value.bytes == bytes
       else Free(bs[e]) && !Has(Pairs(bs, order), bytes) && Reaches(bs, hash(bytes) % |bs|, e)
  }

  // ---- Lists and pairs --------------------------------------------------------------------------------

  lemma Assoc<T>(x: seq<T>, y: seq<T>, z: seq<T>)
    ensures x + y + z == x + (y + z)
  {}

  lemma PairsLast(bs: seq<Bucket>, front: seq<nat>, i: nat, order: seq<nat>)
    requires InRange(bs, front) && i < |bs| && order == front + [i]
    ensures InRange(bs, order)
    ensures Pairs(bs, order) == Pairs(bs, front) + One(bs[i])
  {
    assert order[..|order| - 1] == front;
  }

  lemma {:induction false} PairsConcat(bs: seq<Bucket>, a: seq<nat>, b: seq<nat>)
    requires InRange(bs, a) && InRange(bs, b)
    ensures InRange(bs, a + b)
    ensures Pairs(bs, a + b) == Pairs(bs, a) + Pairs(bs, b)
  {
    var ab := a + b;
    if b == [] {
      assert ab == a;
    } else {
      var front, i := b[..|b| - 1], b[|b| - 1];
      PairsConcat(bs, a, front);
      var x, y, z := Pairs(bs, a), Pairs(bs, front), One(bs[i]);
      assert Pairs(bs, ab) == x + y + z by {
        Assoc(a, front, [i]);
        assert ab == a + front + [i] by { assert b == front + [i]; }
        PairsLast(bs, a + front, i, ab);
      }
      assert Pairs(bs, b) == y + z by { PairsLast(bs, front, i, b); }
      Assoc(x, y, z);
    }
  }

  lemma PairsSplit(bs: seq<Bucket>, order: seq<nat>, j: nat)
    requires InRange(bs, order) && j < |order|
    ensures Pairs(bs, order) == Pairs(bs, order[..j]) + One(bs[order[j]]) + Pairs(bs, order[j + 1..])
  {
    PairsConcat(bs, order[..j + 1], order[j + 1..]);
    assert order == order[..j + 1] + order[j + 1..];
    assert order[..j + 1][..j] == order[..j];
  }

  lemma {:induction false} PairsFrame(bs: seq<Bucket>, cs: seq<Bucket>, order: seq<nat>)
    requires InRange(bs, order) && InRange(cs, order)
    requires forall j :: 0 <= j < |order| ==> One(bs[order[j]]) == One(cs[order[j]])
    ensures Pairs(bs, order) == Pairs(cs, order)
  {
    if order != [] {
      PairsFrame(bs, cs, order[..|order| - 1]);
    }
  }

  /** A key in the pairs sits in some slot of the list. */
  lemma {:induction false} PairHome(bs: seq<Bucket>, order: seq<nat>, i: nat) returns (j: nat)
    requires InRange(bs, order) && i < |Pairs(bs, order)|
    ensures j < |order| && One(bs[order[j]]) == [Pairs(bs, order)[i]]
  {
    var n := |order| - 1;
    if i < |Pairs(bs, order[..n])| {
      j := PairHome(bs, order[..n], i);
    } else {
      j := n;
    }
  }

  /** A live slot of a sound table shows up in the pairs where the list says. */
  lemma Located(bs: seq<Bucket>, order: seq<nat>, hash: HashFn, e: nat) returns (j: nat)
    requires Sound(bs, order, hash) && e < |bs| && bs[e].key.Some?
    ensures j < |order| && order[j] == e
    ensures Pairs(bs, order) == Pairs(bs, order[..j]) + One(bs[e]) + Pairs(bs, order[j + 1..])
    ensures IndexOf(Pairs(bs, order), bs[e].key.value.bytes) == |Pairs(bs, order[..j])|
  {
    assert Listed(order, e);
    j :| 0 <= j < |order| && order[j] == e;
    PairsSplit(bs, order, j);
    IndexUnique(Pairs(bs, order), |Pairs(bs, order[..j])|);
  }

  /** Some slot is free while the list is shorter than the array. */
  lemma SomeFree(bs: seq<Bucket>, order: seq<nat>, hash: HashFn)
    requires Sound(bs, order, hash) && |order| < |bs|
    ensures exists i :: 0 <= i < |bs| && Free(bs[i])
  {
    if forall i :: 0 <= i < |bs| ==> !Free(bs[i]) {
      forall i | i in UpTo(|bs|)
        ensures i in Elements(order)
      {
        assert Listed(order, i);
      }
      SubsetSize(UpTo(|bs|), Elements(order));
      assert false;
    }
  }

  // ---- Steps that keep the table sound ---------------------------------------------------------------

  /** Paths survive when no slot becomes free. */
  lemma SameReach(bs: seq<Bucket>, cs: seq<Bucket>, home: nat, i: nat)
    requires |cs| == |bs| && home < |bs| && i < |bs|
    requires forall k :: 0 <= k < |bs| && !Free(bs[k]) ==> !Free(cs[k])
    requires Reaches(bs, home, i)
    ensures Reaches(cs, home, i)
  {
    forall p | 0 <= p < Steps(home, i, |cs|)
      ensures !Free(cs[Probe(home, p, |cs|)])
    {
      assert !Free(bs[Probe(home, p, |bs|)]);
    }
  }

  /** A live slot that was live before under the same key stays placed. */
  lemma StaysPlaced(bs: seq<Bucket>, cs: seq<Bucket>, hash: HashFn, i: nat)
    requires |cs| == |bs| && i < |bs| && Placed(bs, hash, i)
    requires forall k :: 0 <= k < |bs| && !Free(bs[k]) ==> !Free(cs[k])
    requires cs[i].key.Some? ==>
      && bs[i].key.Some? && cs[i].key.value.bytes == bs[i].key.value.bytes
      && cs[i].ksize == bs[i].ksize && cs[i].hash == bs[i].hash
    ensures Placed(cs, hash, i)
  {
    if cs[i].key.Some? {
      SameReach(bs, cs, bs[i].hash % |bs|, i);
    }
  }

  /** The pairs after the j-th bucket of the list changes. */
  lemma PairsReplace(bs: seq<Bucket>, b: Bucket, order: seq<nat>, j: nat)
    requires InRange(bs, order) && NoDup(order) && j < |order|
    ensures InRange(bs[order[j] := b], order)
    ensures Pairs(bs[order[j] := b], order) == Pairs(bs, order[..j]) + One(b) + Pairs(bs, order[j + 1..])
  {
    var cs := bs[order[j] := b];
    var pre, post := order[..j], order[j + 1..];
    PairsSplit(cs, order, j);
    forall k | 0 <= k < |pre| ensures cs[pre[k]] == bs[pre[k]] { assert Apart(order, k, j); }
    PairsFrame(bs, cs, pre);
    forall k | 0 <= k < |post| ensures cs[post[k]] == bs[post[k]] { assert Apart(order, j, j + 1 + k); }
    PairsFrame(bs, cs, post);
  }

  /** The pairs before and after a live slot changes. */
  lemma PairsUpdate(bs: seq<Bucket>, b: Bucket, order: seq<nat>, hash: HashFn, e: nat)
    returns (i: nat, pre: seq<Pair>, post: seq<Pair>)
    requires Sound(bs, order, hash) && e < |bs| && bs[e].key.Some?
    ensures i == IndexOf(Pairs(bs, order), bs[e].key.value.bytes) == |pre|
    ensures Pairs(bs, order) == pre + One(bs[e]) + post
    ensures InRange(bs[e := b], order)
    ensures Pairs(bs[e := b], order) == pre + One(b) + post
  {
    var j := Located(bs, order, hash, e);
    i, pre, post := |Pairs(bs, order[..j])|, Pairs(bs, order[..j]), Pairs(bs, order[j + 1..]);
    PairsReplace(bs, b, order, j);
  }

  /** A slot in the list changes without becoming free. */
  lemma SlotsKept(bs: seq<Bucket>, b: Bucket, order: seq<nat>, hash: HashFn, e: nat)
    requires Sound(bs, order, hash) && e < |bs| && bs[e].key.Some? && !Free(b)
    requires b.key.Some? ==>
      && b.key.value.bytes == bs[e].key.value.bytes && b.ksize == bs[e].ksize && b.hash == bs[e].hash
    requires InRange(bs[e := b], order) && Distinct(Pairs(bs[e := b], order))
    ensures Sound(bs[e := b], order, hash)
  {
    var cs := bs[e := b];
    forall i | 0 <= i < |cs|
      ensures Placed(cs, hash, i)
    {
      StaysPlaced(bs, cs, hash, i);
    }
  }

  /** Overwriting the pair of a live slot under the same key. */
  lemma Rewrite(bs: seq<Bucket>, b: Bucket, order: seq<nat>, hash: HashFn, e: nat)
    requires Sound(bs, order, hash) && e < |bs| && bs[e].key.Some?
    requires b.key.Some? && b.key.value.bytes == bs[e].key.value.bytes
    requires b.ksize == bs[e].ksize && b.hash == bs[e].hash
    ensures Sound(bs[e := b], order, hash)
    ensures var es, i := Pairs(bs, order), IndexOf(Pairs(bs, order), bs[e].key.value.bytes);
      && i < |es| && [es[i]] == One(bs[e])
      && Pairs(bs[e := b], order) == es[i := Pair(b.key.value, b.value)]
  {
    var i, pre, post := PairsUpdate(bs, b, order, hash, e);
    var es, p := Pairs(bs, order), Pair(b.key.value, b.value);
    assert es[i] == One(bs[e])[0];
    assert pre + One(b) + post == es[i := p];
    DistinctUpdate(es, i, p);
    SlotsKept(bs, b, order, hash, e);
  }

  /** Turning a live slot into a tombstone. */
  lemma Bury(bs: seq<Bucket>, b: Bucket, order: seq<nat>, hash: HashFn, e: nat)
    requires Sound(bs, order, hash) && e < |bs| && bs[e].key.Some?
    requires b.key.None? && !Free(b)
    ensures Sound(bs[e := b], order, hash)
    ensures var es, i := Pairs(bs, order), IndexOf(Pairs(bs, order), bs[e].key.value.bytes);
      && i < |es| && [es[i]] == One(bs[e])
      && Pairs(bs[e := b], order) == es[..i] + es[i + 1..]
  {
    var i, pre, post := PairsUpdate(bs, b, order, hash, e);
    var es := Pairs(bs, order);
    assert es[i] == One(bs[e])[0];
    assert pre + One(b) + post == es[..i] + es[i + 1..];
    DistinctDrop(es, i);
    SlotsKept(bs, b, order, hash, e);
  }

  /** Filling a free slot that the probe sequence of the key leads to. */
  lemma Occupy(bs: seq<Bucket>, cs: seq<Bucket>, order: seq<nat>, hash: HashFn, e: nat)
    requires Sound(bs, order, hash) && |cs| == |bs| && e < |bs|
    requires forall i :: 0 <= i < |bs| && i != e ==> SameData(bs[i], cs[i])
    requires cs[e].key.Some? && cs[e].ksize == |cs[e].key.value.bytes|
    requires cs[e].hash == hash(cs[e].key.value.bytes)
    requires Free(bs[e]) && !Has(Pairs(bs, order), cs[e].key.value.bytes)
    requires Reaches(bs, cs[e].hash % |bs|, e)
    ensures Sound(cs, order + [e], hash)
    ensures Pairs(cs, order + [e]) == Pairs(bs, order) + [Pair(cs[e].key.value, cs[e].value)]
  {
    OccupyListed(bs, cs, order, e);
    OccupyPlaced(bs, cs, hash, e);
    DistinctAppend(Pairs(bs, order), Pair(cs[e].key.value, cs[e].value));
  }

  lemma OccupyListed(bs: seq<Bucket>, cs: seq<Bucket>, order: seq<nat>, e: nat)
    requires InRange(bs, order) && NoDup(order) && |cs| == |bs| && e < |bs|
    requires forall i {:trigger Listed(order, i)} :: 0 <= i < |bs| ==> (Listed(order, i) <==> !Free(bs[i]))
    requires forall i :: 0 <= i < |bs| && i != e ==> SameData(bs[i], cs[i])
    requires Free(bs[e]) && cs[e].key.Some?
    ensures InRange(cs, order + [e]) && NoDup(order + [e])
    ensures forall i {:trigger Listed(order + [e], i)} :: 0 <= i < |cs| ==> (Listed(order + [e], i) <==> !Free(cs[i]))
    ensures Pairs(cs, order + [e]) == Pairs(bs, order) + One(cs[e])
  {
    var longer := order + [e];
    assert !Listed(order, e);
    assert longer[..|longer| - 1] == order;
    forall j, k | 0 <= j < k < |longer|
      ensures Apart(longer, j, k)
    {
      if k < |order| { assert Apart(order, j, k); } else { assert Listed(order, order[j]); }
    }
    forall j | 0 <= j < |order|
      ensures One(bs[order[j]]) == One(cs[order[j]])
    {
      assert Listed(order, order[j]);
      assert SameData(bs[order[j]], cs[order[j]]);
    }
    PairsFrame(bs, cs, order);
    forall i | 0 <= i < |cs|
      ensures Listed(longer, i) <==> !Free(cs[i])
    {
      assert i != e ==> SameData(bs[i], cs[i]);
      assert Listed(longer, i) <==> Listed(order, i) || i == e;
    }
  }

  lemma OccupyPlaced(bs: seq<Bucket>, cs: seq<Bucket>, hash: HashFn, e: nat)
    requires |cs| == |bs| && e < |bs| && Free(bs[e])
    requires forall i :: 0 <= i < |bs| ==> Placed(bs, hash, i)
    requires forall i :: 0 <= i < |bs| && i != e ==> SameData(bs[i], cs[i])
    requires cs[e].key.Some? && cs[e].ksize == |cs[e].key.value.bytes|
    requires cs[e].hash == hash(cs[e].key.value.bytes)
    requires Reaches(bs, cs[e].hash % |bs|, e)
    ensures forall i :: 0 <= i < |cs| ==> Placed(cs, hash, i)
  {
    assert forall k :: 0 <= k < |bs| && !Free(bs[k]) ==> !Free(cs[k]) by {
      assert forall k :: 0 <= k < |bs| && k != e ==> SameData(bs[k], cs[k]);
    }
    forall i | 0 <= i < |cs|
      ensures Placed(cs, hash, i)
    {
      if i == e {
        SameReach(bs, cs, cs[e].hash % |bs|, e);
      } else {
        assert SameData(bs[i], cs[i]);
        StaysPlaced(bs, cs, hash, i);
      }
    }
  }

  /** Writing to a bucket without touching `next` leaves the list alone. */
  lemma KeepsLinks(bs: seq<Bucket>, b: Bucket, order: seq<nat>, e: nat,
                   block: nat, first: Ptr, last: Ptr, tail: Ptr)
    requires InRange(bs, order) && e < |bs| && b.next == bs[e].next
    requires Linked(bs, order, block, first, last, tail)
    ensures InRange(bs[e := b], order) && Linked(bs[e := b], order, block, first, last, tail)
  {
    var cs := bs[e := b];
    forall j | 0 <= j < |order|
      ensures Leads(cs, order, block, tail, j)
    {
      assert Leads(bs, order, block, tail, j);
    }
  }

  /** Hanging slot e behind the last bucket of the list. */
  lemma Relink(bs: seq<Bucket>, cs: seq<Bucket>, order: seq<nat>, e: nat,
               block: nat, first: Ptr, first': Ptr, last: Ptr, tail: Ptr, tail': Ptr)
    requires InRange(bs, order) && |cs| == |bs| && e < |bs| && NoDup(order) && e !in order
    requires Linked(bs, order, block, first, last, tail)
    requires first' == (if order == [] then Slot(block, e) else first)
    requires cs[e].next == tail'
    requires order != [] ==> cs[order[|order| - 1]].next == Slot(block, e)
    requires forall j :: 0 <= j < |order| - 1 ==> cs[order[j]].next == bs[order[j]].next
    ensures InRange(cs, order + [e])
    ensures Linked(cs, order + [e], block, first', Slot(block, e), tail')
  {
    var longer := order + [e];
    forall j | 0 <= j < |longer|
      ensures Leads(cs, longer, block, tail', j)
    {
      if j < |order| - 1 {
        assert Leads(bs, order, block, tail, j);
      }
    }
  }

  /** The array after `m->last->next = p`; the imaginary bucket lies outside it. */
  function Hang(bs: seq<Bucket>, last: Ptr, p: Ptr): (cs: seq<Bucket>)
    ensures |cs| == |bs|
  {
    if last.Slot? && last.index < |bs| then bs[last.index := bs[last.index].(next := p)] else bs
  }

  /** Appending a bucket with a new key to the list and to the table. */
  lemma Appended(bs: seq<Bucket>, cs: seq<Bucket>, order: seq<nat>, hash: HashFn, e: nat, b: Bucket,
                 block: nat, first: Ptr, last: Ptr, tail: Ptr)
    requires Sound(bs, order, hash) && Linked(bs, order, block, first, last, tail) && e < |bs|
    requires b.key.Some? && b.ksize == |b.key.value.bytes| && b.hash == hash(b.key.value.bytes)
    requires Free(bs[e]) && Hit(bs, order, hash, b.key.value.bytes, e)
    requires cs == Hang(bs, last, Slot(block, e))[e := b]
    ensures Sound(cs, order + [e], hash)
    ensures Linked(cs, order + [e], block, if last == Head then Slot(block, e) else first, Slot(block, e), b.next)
    ensures Pairs(cs, order + [e]) == Pairs(bs, order) + [Pair(b.key.value, b.value)]
  {
    assert !Listed(order, e);
    forall i | 0 <= i < |bs| && i != e
      ensures SameData(bs[i], cs[i])
    {}
    Occupy(bs, cs, order, hash, e);
    forall j | 0 <= j < |order| - 1
      ensures cs[order[j]].next == bs[order[j]].next
    {
      assert Apart(order, j, |order| - 1) && Listed(order, order[j]);
    }
    if order != [] { assert Listed(order, order[|order| - 1]); }
    Relink(bs, cs, order, e, block, first, if last == Head then Slot(block, e) else first, last, tail, b.next);
  }

  /** Pointing the last bucket somewhere else changes the tail of the list and nothing more. */
  lemma Retail(bs: seq<Bucket>, cs: seq<Bucket>, order: seq<nat>, hash: HashFn,
               block: nat, first: Ptr, last: Ptr, tail: Ptr, tail': Ptr)
    requires Sound(bs, order, hash) && Linked(bs, order, block, first, last, tail)
    requires cs == Hang(bs, last, tail')
    ensures Sound(cs, order, hash)
    ensures Linked(cs, order, block, if last == Head then tail' else first, last, tail')
    ensures Pairs(cs, order) == Pairs(bs, order)
  {
    forall i | 0 <= i < |bs|
      ensures SameData(bs[i], cs[i])
    {}
    PairsFrame(bs, cs, order);
    forall i | 0 <= i < |cs|
      ensures Placed(cs, hash, i) && (Listed(order, i) <==> !Free(cs[i]))
    {
      assert SameData(bs[i], cs[i]);
      StaysPlaced(bs, cs, hash, i);
    }
    if order != [] { assert Listed(order, order[|order| - 1]); }
    forall j | 0 <= j < |order|
      ensures Leads(cs, order, block, tail', j)
    {
      assert Listed(order, order[j]);
      assert j < |order| - 1 ==> Apart(order, j, |order| - 1);
      assert Leads(bs, order, block, tail, j);
    }
  }

  predicate Misses(b: Bucket, bytes: seq<byte>) {
    b.key.Some? ==> b.key.value.bytes != bytes
  }

  /** The first p probes met neither a free slot nor the key. */
  ghost predicate Passed(bs: seq<Bucket>, home: nat, p: nat, bytes: seq<byte>)
    requires home < |bs| && p <= |bs|
  {
    forall q :: 0 <= q < p ==> !Free(bs[Probe(home, q, |bs|)]) && Misses(bs[Probe(home, q, |bs|)], bytes)
  }

  /** `(index + 1) % capacity`. */
  function After(i: nat, cap: nat): (r: nat)
    requires i < cap
    ensures r == if i + 1 < cap then i + 1 else 0
  {
    if i + 1 < cap then SmallMod(i + 1, cap); (i + 1) % cap else (i + 1) % cap
  }

  lemma SmallMod(i: nat, cap: nat)
    requires i < cap
    ensures i % cap == i
  {}

  /** The condition on which `find_entry` stops: a free bucket, or the key itself. */
  predicate Stops(b: Bucket, bytes: seq<byte>, h: nat) {
    || (b.key.None? && b.value == 0)
    || (b.key.Some? && b.ksize == |bytes| && b.hash == h && b.key.value.bytes == bytes)
  }

  /** A probe sequence that has met no free slot still has a free slot ahead. */
  lemma StillAhead(bs: seq<Bucket>, hash: HashFn, home: nat, p: nat, bytes: seq<byte>, free: nat)
    requires home < |bs| && p < |bs| && free < |bs| && Free(bs[free])
    requires Passed(bs, home, p, bytes) && Placed(bs, hash, Probe(home, p, |bs|))
    requires !Stops(bs[Probe(home, p, |bs|)], bytes, hash(bytes))
    ensures p + 1 < |bs| && Passed(bs, home, p + 1, bytes)
    ensures Probe(home, p + 1, |bs|) == After(Probe(home, p, |bs|), |bs|)
  {
    var s := Steps(home, free, |bs|);
    assert Free(bs[Probe(home, s, |bs|)]);
  }

  /** A slot found along the probe sequence of the key would come before the first free slot. */
  lemma MissAt(bs: seq<Bucket>, hash: HashFn, bytes: seq<byte>, home: nat, p: nat, i: nat)
    requires p < |bs| && i < |bs| && home == hash(bytes) % |bs|
    requires Free(bs[Probe(home, p, |bs|)]) && Passed(bs, home, p, bytes) && Placed(bs, hash, i)
    ensures Misses(bs[i], bytes)
  {
    var s := Steps(home, i, |bs|);
    assert s < p ==> Misses(bs[Probe(home, s, |bs|)], bytes);
  }

  /** If the probe sequence meets a free slot before the key, the key is nowhere. */
  lemma AbsentKey(bs: seq<Bucket>, order: seq<nat>, hash: HashFn, bytes: seq<byte>,
                  home: nat, p: nat)
    requires Sound(bs, order, hash) && p < |bs|
    requires home == hash(bytes) % |bs| && Free(bs[Probe(home, p, |bs|)])
    requires Passed(bs, home, p, bytes)
    ensures Hit(bs, order, hash, bytes, Probe(home, p, |bs|))
  {
    forall i | 0 <= i < |bs|
      ensures Misses(bs[i], bytes)
    {
      MissAt(bs, hash, bytes, home, p, i);
    }
    MissesMeanAbsent(bs, order, bytes);
    assert Steps(home, Probe(home, p, |bs|), |bs|) == p;
  }

  lemma MissesMeanAbsent(bs: seq<Bucket>, order: seq<nat>, bytes: seq<byte>)
    requires InRange(bs, order)
    requires forall i :: 0 <= i < |bs| ==> Misses(bs[i], bytes)
    ensures !Has(Pairs(bs, order), bytes)
  {
    if Has(Pairs(bs, order), bytes) {
      var j := PairHome(bs, order, IndexOf(Pairs(bs, order), bytes));
      assert false;
    }
  }

  /** A key that is not in the pairs is in no slot. */
  lemma NowhereMeansMiss(bs: seq<Bucket>, order: seq<nat>, hash: HashFn, bytes: seq<byte>, i: nat)
    requires Sound(bs, order, hash) && i < |bs| && !Has(Pairs(bs, order), bytes)
    ensures Misses(bs[i], bytes)
  {
    if bs[i].key.Some? {
      var j := Located(bs, order, hash, i);
      assert One(bs[i])[0].key == bs[i].key.value;
    }
  }

  /** No bucket is a tombstone when there are as many pairs as buckets in the list. */
  lemma NoneDead(bs: seq<Bucket>, order: seq<nat>, j: nat)
    requires InRange(bs, order) && |Pairs(bs, order)| == |order| && j < |order|
    ensures bs[order[j]].key.Some?
  {
    PairsSplit(bs, order, j);
  }

  /** Half way through a rehash: the new list holds the live pairs of the first k old buckets, has no
      tombstones, and runs on into the rest of the old list. */
  ghost predicate Moving(bs: seq<Bucket>, order: seq<nat>, hash: HashFn, block: nat, first: Ptr, last: Ptr,
                         olds: seq<Bucket>, was: seq<nat>, oldBlock: nat, k: nat)
  {
    && Sound(bs, order, hash) && InRange(olds, was) && k <= |was|
    && Linked(bs, order, block, first, last, At(was, k, oldBlock, Null))
    && Pairs(bs, order) == Pairs(olds, was[..k])
    && |Pairs(bs, order)| == |order|
  }

  /** Skipping a tombstone. */
  lemma SkipOne(bs: seq<Bucket>, cs: seq<Bucket>, order: seq<nat>, hash: HashFn,
                block: nat, first: Ptr, last: Ptr, tail: Ptr,
                olds: seq<Bucket>, was: seq<nat>, oldBlock: nat, k: nat)
    requires Moving(bs, order, hash, block, first, last, olds, was, oldBlock, k)
    requires k < |was| && olds[was[k]].key.None? && tail == At(was, k + 1, oldBlock, Null)
    requires cs == Hang(bs, last, tail)
    ensures Moving(cs, order, hash, block, if last == Head then tail else first, last, olds, was, oldBlock, k + 1)
  {
    Retail(bs, cs, order, hash, block, first, last, At(was, k, oldBlock, Null), tail);
    PairsLast(olds, was[..k], was[k], was[..k + 1]);
  }

  /** A free slot is not the last bucket of the list, so filling it and hanging it up commute. */
  lemma HangSwap(bs: seq<Bucket>, order: seq<nat>, hash: HashFn, block: nat,
                 e: nat, b: Bucket, p: Ptr)
    requires Sound(bs, order, hash) && e < |bs| && Free(bs[e])
    ensures e !in order
    ensures Hang(bs[e := b], EndOf(order, block), p) == Hang(bs, EndOf(order, block), p)[e := b]
  {
    assert !Listed(order, e);
    if order != [] { assert Listed(order, order[|order| - 1]); }
  }

  /** Moving a live bucket. */
  lemma MoveOne(bs: seq<Bucket>, cs: seq<Bucket>, order: seq<nat>, hash: HashFn,
                block: nat, first: Ptr, last: Ptr,
                olds: seq<Bucket>, was: seq<nat>, oldBlock: nat, k: nat, e: nat, b: Bucket)
    requires Moving(bs, order, hash, block, first, last, olds, was, oldBlock, k)
    requires k < |was| && b == olds[was[k]] && b.next == At(was, k + 1, oldBlock, Null)
    requires b.key.Some? && b.ksize == |b.key.value.bytes| && b.hash == hash(b.key.value.bytes)
    requires e < |bs| && Free(bs[e]) && Hit(bs, order, hash, b.key.value.bytes, e)
    requires cs == Hang(bs, last, Slot(block, e))[e := b]
    ensures Moving(cs, order + [e], hash, block, if last == Head then Slot(block, e) else first, Slot(block, e),
                   olds, was, oldBlock, k + 1)
  {
    var es := Pairs(bs, order);
    assert Pairs(olds, was[..k + 1]) == es + One(b) by { PairsLast(olds, was[..k], was[k], was[..k + 1]); }
    Appended(bs, cs, order, hash, e, b, block, first, last, At(was, k, oldBlock, Null));
    assert |Pairs(cs, order + [e])| == |es| + 1;
  }

  /** Moving a live bucket in the order of `hashmap_resize`: the slot is filled first and hung up then. */
  lemma MoveFilled(bs: seq<Bucket>, cs: seq<Bucket>, order: seq<nat>, hash: HashFn,
                   block: nat, first: Ptr, last: Ptr,
                   olds: seq<Bucket>, was: seq<nat>, oldBlock: nat, k: nat, e: nat, b: Bucket)
    requires Moving(bs, order, hash, block, first, last, olds, was, oldBlock, k)
    requires k < |was| && b == olds[was[k]] && b.next == At(was, k + 1, oldBlock, Null)
    requires b.key.Some? && b.ksize == |b.key.value.bytes| && b.hash == hash(b.key.value.bytes)
    requires e < |bs| && Free(bs[e]) && Hit(bs, order, hash, b.key.value.bytes, e)
    requires cs == Hang(bs[e := b], last, Slot(block, e))
    ensures Moving(cs, order + [e], hash, block, if last == Head then Slot(block, e) else first, Slot(block, e),
                   olds, was, oldBlock, k + 1)
  {
    HangSwap(bs, order, hash, block, e, b, Slot(block, e));
    MoveOne(bs, cs, order, hash, block, first, last, olds, was, oldBlock, k, e, b);
  }

  /** The next live key of the old list is not in the new table yet. */
  lemma NextIsNew(olds: seq<Bucket>, was: seq<nat>, hash: HashFn, k: nat)
    requires Sound(olds, was, hash) && k < |was| && olds[was[k]].key.Some?
    ensures !Has(Pairs(olds, was[..k]), olds[was[k]].key.value.bytes)
    ensures var b := olds[was[k]]; b.ksize == |b.key.value.bytes| && b.hash == hash(b.key.value.bytes)
  {
    PairsSplit(olds, was, k);
    var es, pre := Pairs(olds, was), Pairs(olds, was[..k]);
    assert es[|pre|].key == olds[was[k]].key.value;
    forall i | 0 <= i < |pre|
      ensures pre[i].key.bytes != olds[was[k]].key.value.bytes
    {
      assert pre[i] == es[i] && Unlike(es, i, |pre|);
    }
    assert Placed(olds, hash, was[k]);
  }

  /** An empty array, with nothing moved yet. */
  lemma MoveStart(bs: seq<Bucket>, hash: HashFn, block: nat, first: Ptr,
                  olds: seq<Bucket>, was: seq<nat>, oldBlock: nat)
    requires forall i :: 0 <= i < |bs| ==> bs[i] == ZEROED
    requires InRange(olds, was) && first == At(was, 0, oldBlock, Null)
    ensures Moving(bs, [], hash, block, first, Head, olds, was, oldBlock, 0)
  {}
}
