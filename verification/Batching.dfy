/** How requests are packed into batches: windows, duplicates, size, and what carries what. */
module Batching {
  import opened Bytes
  import opened Text
  import opened Wire
  import opened Protocol
  import opened Counting

  // ---- First occurrences -----------------------------------------------------------------------

  /** The keys of some registrations, each at its first occurrence. */
  function Firsts(regs: seq<Reg>): seq<Key> {
    if regs == [] then []
    else
      var before, key := Firsts(regs[..|regs| - 1]), regs[|regs| - 1].key;
      if key in before then before else before + [key]
  }

  lemma FirstsSnoc(regs: seq<Reg>, r: Reg)
    ensures Firsts(regs + [r]) ==
            if r.key in Firsts(regs) then Firsts(regs) else Firsts(regs) + [r.key]
  {
    assert (regs + [r])[..|regs|] == regs;
  }

  predicate DistinctKeys(ks: seq<Key>) {
    forall i, j :: 0 <= i < j < |ks| ==> ks[i] != ks[j]
  }

  /** `Firsts` keeps every key, invents none, and repeats none. */
  lemma {:induction false} FirstsMeaning(regs: seq<Reg>)
    ensures DistinctKeys(Firsts(regs))
    ensures forall k :: k in Firsts(regs) <==> exists j :: 0 <= j < |regs| && regs[j].key == k
  {
    if regs != [] {
      var n := |regs| - 1;
      FirstsMeaning(regs[..n]);
      forall k
        ensures k in Firsts(regs) <==> exists j :: 0 <= j < |regs| && regs[j].key == k
      {
        if k in Firsts(regs) {
          if k in Firsts(regs[..n]) {
            var j :| 0 <= j < n && regs[..n][j].key == k;
            assert regs[j].key == k;
          } else {
            assert regs[n].key == k;
          }
        }
        if j :| 0 <= j < |regs| && regs[j].key == k {
          if j < n { assert regs[..n][j].key == k; }
        }
      }
    }
  }

  // ---- The invariant ------------------------------------------------------------------------------

  /** Where window i begins; window Epoch(s) is the one still open. */
  function Start(s: State, i: nat): nat
    requires i <= |s.log.cuts|
  {
    if i == 0 then 0 else s.log.cuts[i - 1]
  }

  /** Window i holds the registrations from Start(i) up to its cut, and batch i carries their keys. */
  ghost predicate Window(s: State, i: nat)
    requires i < |s.log.cuts| == |s.log.batches|
  {
    && Start(s, i) < s.log.cuts[i] <= |s.log.regs|
    && s.log.batches[i].keys == Firsts(s.log.regs[Start(s, i)..s.log.cuts[i]])
  }

  /** Batch i left because the next key did not fit: that key, registered in the same epoch, opens the
      next window. */
  predicate Overflowed(s: State, i: nat)
    requires i < |s.log.cuts|
  {
    s.log.cuts[i] < |s.log.regs| && s.log.regs[s.log.cuts[i]].epoch == i
  }

  /** Batch i went out whole, under its id; the key that overflowed it is not among its keys, with which it
      would have been too long. */
  ghost predicate Sent(s: State, i: nat)
    requires i < |s.log.cuts| == |s.log.batches| && |s.log.toServer| == |s.log.batches|
  {
    var b := s.log.batches[i];
    && b.id == i % MAX_REQ_ID
    && b.keys != []
    && |Message(b.keys)| <= MAX_PAYLOAD_LEN
    && s.log.toServer[i] == Framed(b.id, Message(b.keys))
    && (Overflowed(s, i) ==>
          && s.log.regs[s.log.cuts[i]].key !in b.keys
          && |Message(b.keys + [s.log.regs[s.log.cuts[i]].key])| > MAX_PAYLOAD_LEN)
  }

  /** Registration j belongs to the window of its epoch, or overflowed it. */
  predicate Enrolled(s: State, j: nat)
    requires j < |s.log.regs| && |s.log.cuts| == |s.log.batches|
  {
    var r := s.log.regs[j];
    && ValidKey(r.key)
    && r.epoch <= Epoch(s)
    && Start(s, r.epoch) <= j
    && (r.epoch < Epoch(s) ==> j <= s.log.cuts[r.epoch])
  }

  /** The registrations of the window still open. */
  function Open(s: State): seq<Reg>
    requires Start(s, |s.log.cuts|) <= |s.log.regs|
  {
    s.log.regs[Start(s, |s.log.cuts|)..]
  }

  /** Everything but the open window is in order. */
  ghost predicate History(s: State) {
    && Shaped(s)
    && |s.log.cuts| == |s.log.batches| == |s.log.toServer|
    && s.reqId == Epoch(s) % MAX_REQ_ID
    && (forall i :: 0 <= i < Epoch(s) ==> Window(s, i))
    && (forall i :: 0 <= i < Epoch(s) ==> Sent(s, i))
    && (forall j :: 0 <= j < |s.log.regs| ==> Enrolled(s, j))
  }

  /** The invariant: the history is in order, and the pending keys are those of the open window. */
  ghost predicate Batched(s: State) {
    && History(s)
    && Start(s, Epoch(s)) <= |s.log.regs|
    && s.pending == Firsts(Open(s))
    && s.total == TotalSize(s.pending)
    && !Overfull(s)
  }

  lemma OverfullMeansTooLong(s: State)
    requires s.total == TotalSize(s.pending)
    ensures Overfull(s) <==> |Message(s.pending)| > MAX_PAYLOAD_LEN
  {
    MessageLength(s.pending);
  }

  // ---- Slices -------------------------------------------------------------------------------------

  lemma SliceOfPrefix<T>(xs: seq<T>, n: nat, a: nat, b: nat)
    requires a <= b <= n <= |xs|
    ensures xs[a..b] == xs[..n][a..b]
  {}

  lemma TailOfSnoc<T>(xs: seq<T>, ys: seq<T>, a: nat)
    requires |ys| == |xs| + 1 && ys[..|xs|] == xs && a <= |xs|
    ensures ys[a..] == xs[a..] + [ys[|xs|]]
  {
    assert ys == xs + [ys[|xs|]];
  }

  // ---- Steps -----------------------------------------------------------------------------------------

  predicate SamePacking(s: State, t: State) {
    && s.pending == t.pending && s.total == t.total && s.reqId == t.reqId
    && s.log.regs == t.log.regs && s.log.cuts == t.log.cuts
    && s.log.batches == t.log.batches && s.log.toServer == t.log.toServer
  }

  lemma PackingOnly(s: State, t: State)
    requires Batched(s) && Shaped(t) && SamePacking(s, t)
    ensures Batched(t)
  {
    forall i | 0 <= i < Epoch(t)
      ensures Window(t, i) && Sent(t, i)
    {
      assert Window(s, i) && Sent(s, i);
    }
    forall j | 0 <= j < |t.log.regs|
      ensures Enrolled(t, j)
    {
      assert Enrolled(s, j);
    }
  }

  /** The state after one more registration, before the size check. */
  ghost predicate Registered(s: State, t: State, key: Key) {
    && Batched(s) && Shaped(t) && ValidKey(key)
    && |t.log.regs| == |s.log.regs| + 1 && t.log.regs[..|s.log.regs|] == s.log.regs
    && t.log.regs[|s.log.regs|].key == key && t.log.regs[|s.log.regs|].epoch == Epoch(s)
    && t.pending == InsertKey(s, key).pending && t.total == InsertKey(s, key).total && t.reqId == s.reqId
    && t.log.cuts == s.log.cuts && t.log.batches == s.log.batches && t.log.toServer == s.log.toServer
  }

  lemma RegisterPacks(s: State, ip: nat, reqId: u16, key: Key)
    requires Batched(s) && ValidKey(key)
    ensures Registered(s, Register(InsertKey(s, key), ip, reqId, key), key)
  {}

  /** Windows, batches and registrations of the past do not notice a new registration. */
  lemma PastKept(s: State, t: State, key: Key)
    requires Registered(s, t, key)
    ensures forall i :: 0 <= i < Epoch(s) ==> Window(t, i)
    ensures forall i :: 0 <= i < Epoch(s) ==> Sent(t, i)
    ensures forall j :: 0 <= j < |t.log.regs| ==> Enrolled(t, j)
  {
    var n := |s.log.regs|;
    forall i | 0 <= i < Epoch(s)
      ensures Window(t, i) && Sent(t, i)
    {
      assert Window(s, i) && Sent(s, i);
      var a, b := Start(s, i), s.log.cuts[i];
      SliceOfPrefix(t.log.regs, n, a, b);
      if b < n { assert t.log.regs[b] == t.log.regs[..n][b]; }
    }
    forall j | 0 <= j < |t.log.regs|
      ensures Enrolled(t, j)
    {
      if j < n {
        assert Enrolled(s, j);
        assert t.log.regs[j] == t.log.regs[..n][j];
      }
    }
  }

  lemma TotalSnoc(ks: seq<Key>, key: Key)
    ensures TotalSize(ks + [key]) == TotalSize(ks) + |key|
  {
    assert (ks + [key])[..|ks|] == ks;
  }

  lemma OpenGrows(s: State, t: State, key: Key)
    requires Registered(s, t, key)
    ensures Start(t, |t.log.cuts|) <= |t.log.regs|
    ensures Open(t) == Open(s) + [t.log.regs[|s.log.regs|]]
  {
    TailOfSnoc(s.log.regs, t.log.regs, Start(s, |s.log.cuts|));
  }

  /** The open window and the pending keys after a registration. */
  lemma OpenWindow(s: State, t: State, key: Key)
    requires Registered(s, t, key)
    ensures Start(t, |t.log.cuts|) <= |t.log.regs|
    ensures t.pending == Firsts(Open(t)) && t.total == TotalSize(t.pending)
    ensures t.pending != []
    ensures key in s.pending ==> t.pending == s.pending && !Overfull(t)
  {
    OpenGrows(s, t, key);
    FirstsSnoc(Open(s), t.log.regs[|s.log.regs|]);
    TotalSnoc(s.pending, key);
  }

  /** A registration that still fits. */
  lemma RoomLeft(s: State, t: State, key: Key)
    requires Registered(s, t, key) && !Overfull(t)
    ensures Batched(t)
  {
    PastKept(s, t, key);
    OpenWindow(s, t, key);
  }

  /** What sending does to the history, for the part of it that batching talks about. */
  ghost predicate Dispatched(s: State, t: State, keys: seq<Key>, kept: seq<Key>, cut: nat)
    requires s.reqId < WORD16
  {
    && Shaped(t)
    && t.log.regs == s.log.regs
    && t.log.cuts == s.log.cuts + [cut]
    && t.log.batches == s.log.batches + [Batch(s.reqId, keys)]
    && t.log.toServer == s.log.toServer + Accepted(s.reqId, Message(keys))
    && t.reqId == (s.reqId + 1) % MAX_REQ_ID
    && t.pending == kept && t.total == TotalSize(kept)
  }

  /** The open window can be closed at `cut` and `keys` sent. */
  ghost predicate Closable(s: State, keys: seq<Key>, cut: nat)
    requires |s.log.cuts| == |s.log.batches|
  {
    && Start(s, Epoch(s)) < cut <= |s.log.regs| <= cut + 1
    && keys == Firsts(s.log.regs[Start(s, Epoch(s))..cut]) && keys != []
    && |Message(keys)| <= MAX_PAYLOAD_LEN
    && (cut < |s.log.regs| ==>
          && s.log.regs[cut].epoch == Epoch(s) && s.log.regs[cut].key !in keys
          && |Message(keys + [s.log.regs[cut].key])| > MAX_PAYLOAD_LEN)
  }

  lemma OldBatchesStay(s: State, t: State, keys: seq<Key>, kept: seq<Key>, cut: nat, i: nat)
    requires History(s) && Dispatched(s, t, keys, kept, cut) && i < Epoch(s)
    ensures |t.log.cuts| == |t.log.batches| && Window(t, i)
    ensures |t.log.toServer| >= |s.log.toServer|
    ensures |t.log.toServer| == |t.log.batches| ==> Sent(t, i)
  {
    assert Window(s, i) && Sent(s, i);
  }

  lemma NewBatch(s: State, t: State, keys: seq<Key>, kept: seq<Key>, cut: nat)
    requires History(s) && Dispatched(s, t, keys, kept, cut) && Closable(s, keys, cut)
    ensures |t.log.cuts| == |t.log.batches| == |t.log.toServer|
    ensures t.reqId == Epoch(t) % MAX_REQ_ID
    ensures Window(t, Epoch(s)) && Sent(t, Epoch(s))
  {
    NextId(Epoch(s));
    assert Accepted(s.reqId, Message(keys)) == [Framed(s.reqId, Message(keys))];
  }

  /** Closing the open window at `cut`, when everything before is in order. */
  lemma CloseWindow(s: State, t: State, keys: seq<Key>, kept: seq<Key>, cut: nat)
    requires History(s) && Dispatched(s, t, keys, kept, cut) && Closable(s, keys, cut)
    requires kept == Firsts(s.log.regs[cut..]) && !Overfull(t)
    ensures Batched(t)
  {
    NewBatch(s, t, keys, kept, cut);
    forall i | 0 <= i < Epoch(t)
      ensures Window(t, i) && Sent(t, i)
    {
      if i < Epoch(s) { OldBatchesStay(s, t, keys, kept, cut, i); }
    }
    forall j | 0 <= j < |t.log.regs|
      ensures Enrolled(t, j)
    {
      assert Enrolled(s, j);
    }
    assert Open(t) == s.log.regs[cut..];
  }

  /** A partial batch takes everything. */
  lemma SendAll(s: State)
    requires Batched(s)
    ensures Batched(SendBatch(s, false))
  {
    if s.pending != [] {
      var t, n, a := SendBatch(s, false), |s.log.regs|, Start(s, |s.log.cuts|);
      OverfullMeansTooLong(s);
      assert s.log.regs[a..n] == Open(s);
      assert s.log.regs[n..] == [];
      CloseWindow(s, t, s.pending, [], n);
    }
  }

  /** A key that overflows is new, and does not overflow an empty batch. */
  lemma OverflowIsNew(s: State, u: State, key: Key)
    requires Registered(s, u, key) && Overfull(u)
    ensures u.pending == s.pending + [key] && s.pending != [] && key !in s.pending
    ensures |Message(s.pending)| <= MAX_PAYLOAD_LEN < |Message(s.pending + [key])|
  {
    OpenWindow(s, u, key);
    OverfullMeansTooLong(s);
    OverfullMeansTooLong(u);
    MessageLength([key]);
    TotalSnoc([], key);
    assert [] + [key] == [key];
  }

  /** An overflowing registration closes the window just before itself. */
  lemma OverflowCloses(s: State, u: State, key: Key)
    requires Registered(s, u, key) && Overfull(u)
    ensures History(u) && Closable(u, s.pending, |s.log.regs|)
    ensures Firsts(u.log.regs[|s.log.regs|..]) == [key]
  {
    var n, a := |s.log.regs|, Start(s, |s.log.cuts|);
    OverflowIsNew(s, u, key);
    PastKept(s, u, key);
    assert u.log.regs[a..n] == Open(s) by { SliceOfPrefix(u.log.regs, n, a, n); }
    assert u.log.regs[n..] == [] + [u.log.regs[n]];
    FirstsSnoc([], u.log.regs[n]);
    assert [] + [key] == [key];
  }

  /** A full batch leaves the key that overflowed it behind. */
  lemma SendFull(s: State, u: State, key: Key)
    requires Registered(s, u, key) && Overfull(u)
    ensures Batched(SendBatch(u, true))
  {
    OverflowIsNew(s, u, key);
    assert Travelling(u, true) == s.pending && Kept(u, true) == [key];
    OverflowCloses(s, u, key);
    TotalSnoc([], key);
    assert [] + [key] == [key];
    CloseWindow(u, SendBatch(u, true), s.pending, [key], |s.log.regs|);
  }

  lemma TakeKeyBatched(s: State, ip: nat, reqId: u16, key: Key)
    requires Batched(s) && ValidKey(key)
    ensures Batched(TakeKey(s, ip, reqId, key))
  {
    RegisterPacks(s, ip, reqId, key);
    var r := Register(InsertKey(s, key), ip, reqId, key);
    if Overfull(r) {
      SendFull(s, r, key);
    } else {
      RoomLeft(s, r, key);
    }
  }

  // ---- What a registration is carried by ----------------------------------------------------------------

  lemma {:induction false} FirstsHead(regs: seq<Reg>)
    requires regs != []
    ensures Firsts(regs) != [] && Firsts(regs)[0] == regs[0].key
  {
    if |regs| > 1 {
      FirstsHead(regs[..|regs| - 1]);
    } else {
      assert Firsts(regs[..0]) == [];
    }
  }

  lemma FirstsHolds(regs: seq<Reg>, j: nat)
    requires j < |regs|
    ensures regs[j].key in Firsts(regs)
  {
    FirstsMeaning(regs);
  }

  /** Registration j overflowed the batch of its epoch: it was left over for the next one. */
  predicate LeftOver(s: State, j: nat)
    requires j < |s.log.regs|
  {
    var e := s.log.regs[j].epoch;
    e < |s.log.cuts| && Overflowed(s, e) && j == s.log.cuts[e]
  }

  /** A registration before the cut of its epoch is carried by the batch of its epoch. */
  lemma CarriedInTime(s: State, j: nat)
    requires Batched(s) && j < |s.log.regs| && s.log.regs[j].epoch < Epoch(s) && j < s.log.cuts[s.log.regs[j].epoch]
    ensures s.log.regs[j].key in s.log.batches[s.log.regs[j].epoch].keys
  {
    var e := s.log.regs[j].epoch;
    assert Enrolled(s, j) && Window(s, e);
    var w := s.log.regs[Start(s, e)..s.log.cuts[e]];
    assert w[j - Start(s, e)] == s.log.regs[j];
    FirstsHolds(w, j - Start(s, e));
  }

  lemma NotBeyondCut(s: State, j: nat)
    requires Batched(s) && j < |s.log.regs| && s.log.regs[j].epoch < Epoch(s)
    ensures LeftOver(s, j) <==> j >= s.log.cuts[s.log.regs[j].epoch]
  {
    assert Enrolled(s, j);
  }

  /** What is left over opens the next window. */
  lemma LeftOverIsFirst(s: State, j: nat)
    requires Batched(s) && j < |s.log.regs| && LeftOver(s, j)
    ensures var r := s.log.regs[j];
      && r.key !in s.log.batches[r.epoch].keys
      && (if r.epoch + 1 < Epoch(s) then
            s.log.batches[r.epoch + 1].keys != [] && r.key == s.log.batches[r.epoch + 1].keys[0]
          else s.pending != [] && r.key == s.pending[0])
  {
    var e := s.log.regs[j].epoch;
    assert Sent(s, e);
    if e + 1 < Epoch(s) {
      assert Window(s, e + 1);
      FirstsHead(s.log.regs[j..s.log.cuts[e + 1]]);
    } else {
      FirstsHead(Open(s));
    }
  }

  lemma OpenIsPending(s: State, j: nat)
    requires Batched(s) && j < |s.log.regs| && s.log.regs[j].epoch == Epoch(s)
    ensures s.log.regs[j].key in s.pending
  {
    assert Enrolled(s, j);
    assert Open(s)[j - Start(s, Epoch(s))] == s.log.regs[j];
    FirstsHolds(Open(s), j - Start(s, Epoch(s)));
  }

  /** MAIN.  The key of a registration travels in the batch of its own epoch if and only if it did not
      overflow that batch; a key that did travels in the next one instead, and there it comes first.  Keys
      of the open epoch are pending. */
  lemma CarriedByItsBatch(s: State, j: nat)
    requires Batched(s) && j < |s.log.regs|
    ensures var r, n := s.log.regs[j], Epoch(s);
      && r.epoch <= n
      && (r.epoch == n ==> r.key in s.pending)
      && (r.epoch < n ==> (r.key in s.log.batches[r.epoch].keys <==> !LeftOver(s, j)))
      && (LeftOver(s, j) ==>
            if r.epoch + 1 < n then
              s.log.batches[r.epoch + 1].keys != [] && r.key == s.log.batches[r.epoch + 1].keys[0]
            else s.pending != [] && r.key == s.pending[0])
  {
    assert Enrolled(s, j);
    if s.log.regs[j].epoch == Epoch(s) {
      OpenIsPending(s, j);
    } else {
      NotBeyondCut(s, j);
      if LeftOver(s, j) { LeftOverIsFirst(s, j); } else { CarriedInTime(s, j); }
    }
  }

  /** A key of a batch was registered in that batch's window, so nobody is asked for what nobody wants. */
  lemma CarriedWasRegistered(s: State, i: nat, k: Key) returns (j: nat)
    requires Batched(s) && i < Epoch(s) && k in s.log.batches[i].keys
    ensures Start(s, i) <= j < s.log.cuts[i] <= |s.log.regs| && s.log.regs[j].key == k
  {
    assert Window(s, i);
    var w := s.log.regs[Start(s, i)..s.log.cuts[i]];
    FirstsMeaning(w);
    var d :| 0 <= d < |w| && w[d].key == k;
    j := Start(s, i) + d;
  }

  lemma {:induction false} CutsGrow(s: State, a: nat, b: nat)
    requires Batched(s) && a < b < Epoch(s)
    ensures s.log.cuts[a] < s.log.cuts[b]
    decreases b
  {
    assert Window(s, b);
    if a < b - 1 { CutsGrow(s, a, b - 1); }
  }

  /** MAIN.  The converse of `CarriedByItsBatch`: whatever stands in the window of batch i was registered in
      epoch i, so a reply under the id of batch i is looked up where its key was registered; the one exception
      is a first key left over from the overflow of batch i - 1. */
  lemma WindowIsItsEpoch(s: State, i: nat, j: nat)
    requires Batched(s) && i < Epoch(s) && Start(s, i) <= j < s.log.cuts[i] && j < |s.log.regs|
    ensures s.log.regs[j].epoch == i ||
            (i > 0 && j == Start(s, i) && s.log.regs[j].epoch == i - 1 && LeftOver(s, j))
  {
    var e := s.log.regs[j].epoch;
    assert Enrolled(s, j);
    if e < i {
      if e < i - 1 { CutsGrow(s, e, i - 1); }
    } else if e > i {
      if i < e - 1 { CutsGrow(s, i, e - 1); }
    }
  }

  // ---- The rows of ukey ------------------------------------------------------------------------------------

  /** How many keys are a single character. */
  function Singles(ks: seq<Key>): nat {
    if ks == [] then 0 else Singles(ks[..|ks| - 1]) + if |ks[|ks| - 1]| == 1 then 1 else 0
  }

  lemma {:induction false} SizeBySingles(ks: seq<Key>)
    requires ValidKeys(ks)
    ensures TotalSize(ks) + Singles(ks) >= 2 * |ks|
  {
    if ks != [] {
      SizeBySingles(ks[..|ks| - 1]);
    }
  }

  /** Distinct one-character keys use distinct characters. */
  lemma {:induction false} SinglesAreCharacters(ks: seq<Key>) returns (chars: set<int>)
    requires ValidKeys(ks) && DistinctKeys(ks)
    ensures |chars| == Singles(ks)
    ensures forall c :: c in chars ==> [c] in ks && 0 < c < 256 && c != SPACE
  {
    chars := {};
    if ks != [] {
      var n := |ks| - 1;
      var k := ks[n];
      chars := SinglesAreCharacters(ks[..n]);
      if |k| == 1 {
        assert k == [k[0]] && ValidKey(k);
        assert k[0] !in chars;
        chars := chars + {k[0]};
      }
    }
  }

  /** Of n characters, NUL and the space are not available. */
  lemma FewCharacters(chars: set<int>, n: nat)
    requires n > 32 && forall c :: c in chars ==> 0 < c < n && c != SPACE
    ensures |chars| <= n - 2
  {
    var all := UpTo(n) - {0} - {SPACE as int};
    assert |all| == n - 2;
    SubsetSize(chars, all);
  }

  lemma PendingIsPlain(s: State)
    requires Batched(s)
    ensures ValidKeys(s.pending) && DistinctKeys(s.pending)
  {
    FirstsMeaning(Open(s));
    forall i | 0 <= i < |s.pending|
      ensures ValidKey(s.pending[i])
    {
      var k := s.pending[i];
      assert k in Firsts(Open(s));
      var j :| 0 <= j < |Open(s)| && Open(s)[j].key == k;
      assert Enrolled(s, Start(s, Epoch(s)) + j);
    }
  }

  /** MAIN.  The 600 rows of `ukey` are never outgrown, not even by the key that overflows the size limit:
      that limit alone would admit more than 700 keys, but at most 254 of them have one character. */
  lemma RowsSuffice(s: State, key: Key)
    requires Batched(s) && ValidKey(key)
    ensures |InsertKey(s, key).pending| <= 571 < MAP_ENTRIES
    ensures InsertKey(s, key).total < WORD16
  {
    PendingIsPlain(s);
    SizeBySingles(s.pending);
    var chars := SinglesAreCharacters(s.pending);
    FewCharacters(chars, 256);
  }
}
