/** The client table and its eviction ring: how long a row can live, and why request ids taken modulo
    60000 never confuse two of them. */
module Aging {
  import opened Bytes
  import opened Text
  import opened Protocol

  function SigOf(m: Made): Sig {
    Signature(m.epoch % MAX_REQ_ID, m.key)
  }

  function Created(s: State): nat {
    |s.log.made|
  }

  /** The epoch of the newest creation. */
  function Latest(s: State): nat
    requires s.log.made != []
  {
    s.log.made[|s.log.made| - 1].epoch
  }

  // ---- The invariant --------------------------------------------------------------------------------

  /** A row was created among the last 600 creations, under its own signature. */
  ghost predicate Row(s: State, sig: Sig)
    requires sig in s.table
  {
    && sig in s.log.born
    && Created(s) - MAP_ENTRIES <= s.log.born[sig] < Created(s)
    && SigOf(s.log.made[s.log.born[sig]]) == sig
  }

  /** The ring remembers the last 600 creations. */
  ghost predicate Remembered(s: State, c: nat)
    requires c < Created(s) && |s.ring| == MAP_ENTRIES
  {
    Created(s) - MAP_ENTRIES <= c ==> s.ring[c % MAP_ENTRIES] == SigOf(s.log.made[c])
  }

  ghost predicate Unused(s: State, j: nat)
    requires j < |s.ring|
  {
    s.ring[j] == []
  }

  /** A signature is born with its newest creation. */
  ghost predicate Labelled(s: State, c: nat)
    requires c < Created(s)
  {
    var sig := SigOf(s.log.made[c]);
    sig in s.log.born && c <= s.log.born[sig] < Created(s)
  }

  /** Epochs of creations never go back, and from one creation to the next at most two batches are sent. */
  ghost predicate Paced(s: State, c: nat)
    requires c < Created(s)
  {
    s.log.made[c].epoch <= Latest(s) <= s.log.made[c].epoch + 2 * (Created(s) - 1 - c)
  }

  ghost predicate Ringed(s: State) {
    && Shaped(s)
    && s.ringPtr == Created(s) % MAP_ENTRIES
    && s.reqId == Epoch(s) % MAX_REQ_ID
    && (forall sig {:trigger Row(s, sig)} :: sig in s.table ==> Row(s, sig))
    && (forall c :: 0 <= c < Created(s) ==> Remembered(s, c))
    && (forall j :: Created(s) <= j < MAP_ENTRIES ==> Unused(s, j))
    && (forall c :: 0 <= c < Created(s) ==> Paced(s, c))
    && (forall c :: 0 <= c < Created(s) ==> Labelled(s, c))
    && (if s.log.made == [] then Epoch(s) == 0 else Latest(s) <= Epoch(s) <= Latest(s) + 2)
  }

  /** An epoch without a creation has at most the key carried over into it, and no second such epoch
      can follow while keys are pending. */
  ghost predicate Quiet(s: State) {
    if s.log.made == [] then s.pending == []
    else if Epoch(s) == Latest(s) then true
    else if Epoch(s) == Latest(s) + 1 then |s.pending| <= 1
    else s.pending == []
  }

  ghost predicate Aged(s: State) {
    Ringed(s) && Quiet(s)
  }

  // ---- No row is old enough to be confused with a new one ------------------------------------------

  /** How many batches have been sent since the row was created. */
  function Age(s: State, sig: Sig): int
    requires sig in s.log.born && s.log.born[sig] < Created(s)
  {
    Epoch(s) - s.log.made[s.log.born[sig]].epoch
  }

  lemma YoungRow(s: State, sig: Sig)
    requires Ringed(s) && sig in s.table
    ensures Row(s, sig) && 0 <= Age(s, sig) <= 1200
  {
    assert Row(s, sig);
    assert Paced(s, s.log.born[sig]);
  }

  /** MAIN.  A row found under the current request id was created under the current one of the many epochs
      that share this id. */
  lemma NoAlias(s: State, key: Key)
    requires Ringed(s) && Signature(s.reqId, key) in s.table
    ensures var sig := Signature(s.reqId, key);
      Row(s, sig) && Age(s, sig) == 0 && s.log.made[s.log.born[sig]].key == key
  {
    var sig := Signature(s.reqId, key);
    YoungRow(s, sig);
    var m := s.log.made[s.log.born[sig]];
    SignatureInjective(m.epoch % MAX_REQ_ID, m.key, s.reqId, key);
    SameId(m.epoch, Epoch(s));
  }

  lemma SlotsDiffer(c: nat, n: nat)
    requires c < n < c + MAP_ENTRIES
    ensures c % MAP_ENTRIES != n % MAP_ENTRIES
  {}

  // ---- Registration ------------------------------------------------------------------------------------

  /** What creating a row does to the table and the ring. */
  ghost predicate Creates(s: State, t: State, key: Key) {
    var sig := Signature(s.reqId, key);
    && Shaped(s) && Shaped(t)
    && t.log.made == s.log.made + [Made(Epoch(s), key, |s.log.regs|)]
    && t.log.born == s.log.born[sig := Created(s)]
    && t.log.batches == s.log.batches && t.reqId == s.reqId
    && t.ring == s.ring[s.ringPtr := sig] && t.ringPtr == (s.ringPtr + 1) % MAP_ENTRIES
    && t.table.Keys == s.table.Keys - {s.ring[s.ringPtr]} + {sig}
  }

  /** The slot about to be reused holds the oldest creation still remembered. */
  lemma VictimIsOldest(s: State)
    requires Ringed(s)
    ensures Created(s) < MAP_ENTRIES ==> s.ring[s.ringPtr] == []
    ensures Created(s) >= MAP_ENTRIES ==>
      s.ring[s.ringPtr] == SigOf(s.log.made[Created(s) - MAP_ENTRIES])
  {
    var n := Created(s);
    if n < MAP_ENTRIES {
      assert Unused(s, n);
    } else {
      assert Remembered(s, n - MAP_ENTRIES);
      assert (n - MAP_ENTRIES) % MAP_ENTRIES == n % MAP_ENTRIES;
    }
  }

  lemma RowsAfter(s: State, t: State, key: Key, x: Sig)
    requires Ringed(s) && Creates(s, t, key) && x in t.table
    ensures Row(t, x)
  {
    if x == Signature(s.reqId, key) {
    } else {
      assert Row(s, x);
      VictimIsOldest(s);
    }
  }

  lemma RingAfter(s: State, t: State, key: Key, c: nat)
    requires Ringed(s) && Creates(s, t, key) && c < Created(t)
    ensures Remembered(t, c) && Paced(t, c) && Labelled(t, c)
  {
    var n := Created(s);
    if c < n {
      assert Remembered(s, c) && Paced(s, c) && Labelled(s, c);
      if n + 1 - MAP_ENTRIES <= c { SlotsDiffer(c, n); }
    }
  }

  lemma AllRowsAfter(s: State, t: State, key: Key)
    requires Ringed(s) && Creates(s, t, key)
    ensures forall x :: x in t.table ==> Row(t, x)
  {
    forall x | x in t.table
      ensures Row(t, x)
    {
      RowsAfter(s, t, key, x);
    }
  }

  lemma WholeRingAfter(s: State, t: State, key: Key)
    requires Ringed(s) && Creates(s, t, key)
    ensures forall c :: 0 <= c < Created(t) ==> Remembered(t, c)
    ensures forall c :: 0 <= c < Created(t) ==> Paced(t, c)
    ensures forall c :: 0 <= c < Created(t) ==> Labelled(t, c)
    ensures forall j :: Created(t) <= j < MAP_ENTRIES ==> Unused(t, j)
  {
    forall c | 0 <= c < Created(t)
      ensures Remembered(t, c) && Paced(t, c) && Labelled(t, c)
    {
      RingAfter(s, t, key, c);
    }
    forall j | Created(t) <= j < MAP_ENTRIES
      ensures Unused(t, j)
    {
      assert Unused(s, j);
    }
  }

  lemma CreateAges(s: State, t: State, key: Key)
    requires Ringed(s) && Creates(s, t, key)
    ensures Ringed(t) && Latest(t) == Epoch(t)
  {
    AllRowsAfter(s, t, key);
    WholeRingAfter(s, t, key);
  }

  /** Changes that keep every row's creation. */
  ghost predicate SameRing(s: State, t: State) {
    && Shaped(t)
    && t.table.Keys <= s.table.Keys && t.ring == s.ring && t.ringPtr == s.ringPtr
    && t.log.made == s.log.made && t.log.born == s.log.born
    && t.log.batches == s.log.batches && t.reqId == s.reqId
  }

  lemma RingOnly(s: State, t: State)
    requires Ringed(s) && SameRing(s, t)
    ensures Ringed(t)
  {
    forall x | x in t.table ensures Row(t, x) { assert Row(s, x); }
    forall c | 0 <= c < Created(t) ensures Remembered(t, c) && Paced(t, c) && Labelled(t, c) {
      assert Remembered(s, c) && Paced(s, c) && Labelled(s, c);
    }
    forall j | Created(t) <= j < MAP_ENTRIES ensures Unused(t, j) { assert Unused(s, j); }
  }

  /** Whether the row is new or found, the newest creation now belongs to the current epoch. */
  lemma RegisterAges(s: State, ip: nat, reqId: u16, key: Key)
    requires Ringed(s)
    ensures var t := Register(s, ip, reqId, key);
      Ringed(t) && t.log.made != [] && Latest(t) == Epoch(t)
  {
    var t := Register(s, ip, reqId, key);
    var sig := Signature(s.reqId, key);
    if sig in s.table {
      NoAlias(s, key);
      assert Paced(s, s.log.born[sig]);
      RingOnly(s, t);
    } else {
      CreateAges(s, t, key);
    }
  }

  // ---- Sending ---------------------------------------------------------------------------------------------

  lemma SendAges(s: State, full: bool)
    requires Ringed(s) && s.log.made != [] && s.pending != []
    requires Epoch(s) == Latest(s) || (Epoch(s) == Latest(s) + 1 && !full)
    ensures Aged(SendBatch(s, full))
  {
    var t := SendBatch(s, full);
    assert Epoch(t) == Epoch(s) + 1;
    forall x | x in t.table ensures Row(t, x) { assert Row(s, x); }
    forall c | 0 <= c < Created(t) ensures Remembered(t, c) && Paced(t, c) && Labelled(t, c) {
      assert Remembered(s, c) && Paced(s, c) && Labelled(s, c);
    }
    forall j | Created(t) <= j < MAP_ENTRIES ensures Unused(t, j) { assert Unused(s, j); }
  }

  lemma SendAllAges(s: State)
    requires Aged(s)
    ensures Aged(SendBatch(s, false))
  {
    if s.pending != [] {
      SendAges(s, false);
    }
  }

  lemma TakeKeyAges(s: State, ip: nat, reqId: u16, key: Key)
    requires Aged(s)
    ensures Aged(TakeKey(s, ip, reqId, key))
  {
    var i := InsertKey(s, key);
    RingOnly(s, i);
    RegisterAges(i, ip, reqId, key);
    var r := Register(i, ip, reqId, key);
    if Overfull(r) {
      SendAges(r, true);
    }
  }

  // ---- The size of the table and the time of eviction -----------------------------------------------------

  /** MAIN.  The table never holds more rows than the ring has slots, so adding one never fails. */
  lemma TableBounded(s: State)
    requires Ringed(s)
    ensures |s.table| <= MAP_ENTRIES
    ensures Created(s) <= MAP_ENTRIES ==> |s.table| <= Created(s)
    ensures |s.table.Keys - {s.ring[s.ringPtr]}| < MAP_ENTRIES
  {
    var low := if Created(s) <= MAP_ENTRIES then 0 else Created(s) - MAP_ENTRIES;
    forall sig | sig in s.table
      ensures sig in s.log.born && low <= s.log.born[sig] < Created(s)
    {
      assert Row(s, sig);
    }
    RowsWithin(s, s.table.Keys, low, Created(s));
    var rest := s.table.Keys - {s.ring[s.ringPtr]};
    VictimIsOldest(s);
    if Created(s) >= MAP_ENTRIES {
      forall sig | sig in rest
        ensures s.log.born[sig] >= low + 1
      {
        assert Row(s, sig);
      }
      RowsWithin(s, rest, low + 1, Created(s));
    } else {
      RowsWithin(s, rest, low, Created(s));
    }
  }

  /** Rows created by the creations from `low` up to `high` are at most that many. */
  lemma {:induction false} RowsWithin(s: State, rows: set<Sig>, low: nat, high: nat)
    requires Ringed(s) && rows <= s.table.Keys && low <= high <= Created(s)
    requires forall sig :: sig in rows ==> sig in s.log.born && low <= s.log.born[sig] < high
    ensures |rows| <= high - low
    decreases high - low
  {
    if low == high {
      assert rows == {};
    } else {
      var last := SigOf(s.log.made[high - 1]);
      var fewer := rows - {last};
      forall sig | sig in fewer
        ensures s.log.born[sig] < high - 1
      {
        assert Row(s, sig);
      }
      RowsWithin(s, fewer, low, high - 1);
      if last in rows { assert rows == fewer + {last}; } else { assert rows == fewer; }
    }
  }

  /** MAIN.  The row given up for a new one is that of the creation 600 before; the row itself is of that
      creation exactly when its signature was not created again since. */
  lemma EvictionTime(s: State)
    requires Ringed(s) && s.ring[s.ringPtr] in s.table
    ensures var v, old600 := s.ring[s.ringPtr], Created(s) - MAP_ENTRIES;
      && old600 >= 0
      && SigOf(s.log.made[old600]) == v
      && v in s.log.born
      && (s.log.born[v] == old600 <==>
            forall c :: old600 < c < Created(s) ==> SigOf(s.log.made[c]) != v)
  {
    var v := s.ring[s.ringPtr];
    assert Row(s, v);
    VictimIsOldest(s);
    forall c | Created(s) - MAP_ENTRIES < c < Created(s) && SigOf(s.log.made[c]) == v
      ensures s.log.born[v] >= c
    {
      assert Labelled(s, c);
    }
  }
}
