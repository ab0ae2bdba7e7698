/** The books kept in every run, whatever the server answers: the size of every batch in `keys_sent`, and at
    most one closing for each time an id was sent. */
module Ledgers {
  import opened Text
  import opened Protocol

  // ---- The invariant ------------------------------------------------------------------------------

  /** `keys_sent` holds the size of the newest batch of each id. */
  predicate Recorded(s: State, b: nat)
    requires Shaped(s) && b < Epoch(s)
  {
    Epoch(s) - MAX_REQ_ID <= b ==> s.keysSent[b % MAX_REQ_ID] == |s.log.batches[b].keys|
  }

  predicate Under(s: State, b: nat, id: nat) {
    b < Epoch(s) && s.log.batches[b].id == id
  }

  /** Some batch between the two epochs went out under this id. */
  ghost predicate SentBetween(s: State, id: nat, from: nat, to: nat) {
    exists b :: from <= b < to && Under(s, b, id)
  }

  /** A closed id is open again only after it was sent again. */
  ghost predicate ClosedUntilSent(s: State, c: nat)
    requires Shaped(s) && c < |s.log.closings|
  {
    var x := s.log.closings[c];
    && x.id < MAX_REQ_ID && x.epoch <= Epoch(s)
    && (s.keysRcvd[x.id] >= 0 ==> SentBetween(s, x.id, x.epoch, Epoch(s)))
  }

  /** Between two closings of an id it was sent again. */
  ghost predicate SentAgain(s: State, c: nat, d: nat)
    requires c < |s.log.closings| && d < |s.log.closings|
  {
    var x, y := s.log.closings[c], s.log.closings[d];
    x.id == y.id ==> SentBetween(s, x.id, x.epoch, y.epoch)
  }

  ghost predicate Booked(s: State) {
    && Shaped(s)
    && s.reqId == Epoch(s) % MAX_REQ_ID
    && (forall b :: 0 <= b < Epoch(s) ==> Recorded(s, b))
    && (forall c :: 0 <= c < |s.log.closings| ==> ClosedUntilSent(s, c))
    && (forall c, d :: 0 <= c < d < |s.log.closings| ==> SentAgain(s, c, d))
  }

  // ---- Steps ------------------------------------------------------------------------------------------

  /** No counter opens, and nothing is sent or closed. */
  ghost predicate SameBooks(s: State, t: State) {
    && Shaped(s) && Shaped(t)
    && t.reqId == s.reqId && t.keysSent == s.keysSent
    && (forall id :: 0 <= id < MAX_REQ_ID && t.keysRcvd[id] >= 0 ==> s.keysRcvd[id] >= 0)
    && t.log.batches == s.log.batches && t.log.closings == s.log.closings
  }

  lemma BooksOnly(s: State, t: State)
    requires Booked(s) && SameBooks(s, t)
    ensures Booked(t)
  {
    forall b | 0 <= b < Epoch(t) ensures Recorded(t, b) { assert Recorded(s, b); }
    forall c | 0 <= c < |t.log.closings| ensures ClosedUntilSent(t, c) {
      var x := s.log.closings[c];
      assert ClosedUntilSent(s, c);
      SentStays(s, t, x.id, x.epoch, Epoch(s));
    }
    forall c, d | 0 <= c < d < |t.log.closings| ensures SentAgain(t, c, d) {
      var x, y := s.log.closings[c], s.log.closings[d];
      assert SentAgain(s, c, d);
      SentStays(s, t, x.id, x.epoch, y.epoch);
    }
  }

  lemma SentStays(s: State, t: State, id: nat, from: nat, to: nat)
    requires s.log.batches <= t.log.batches
    ensures SentBetween(s, id, from, to) ==> SentBetween(t, id, from, to)
  {
    if SentBetween(s, id, from, to) {
      var b :| from <= b < to && Under(s, b, id);
      assert Under(t, b, id);
    }
  }

  /** What sending does to the books. */
  ghost predicate Books(s: State, t: State, keys: seq<Key>) {
    && Shaped(s) && Shaped(t)
    && t.reqId == (s.reqId + 1) % MAX_REQ_ID
    && t.keysSent == s.keysSent[s.reqId := |keys|] && t.keysRcvd == s.keysRcvd[s.reqId := 0]
    && t.log.batches == s.log.batches + [Batch(s.reqId, keys)] && t.log.closings == s.log.closings
  }

  /** The slot of `keys_sent` written for a new batch is not that of any of the last 59999. */
  lemma OldSizeStays(s: State, t: State, keys: seq<Key>, b: nat)
    requires Booked(s) && Books(s, t, keys) && b < Epoch(s)
    ensures Recorded(t, b)
  {
    assert Recorded(s, b);
    if Epoch(t) - MAX_REQ_ID <= b { SameId(b, Epoch(s)); }
  }

  lemma ReopenedBySending(s: State, t: State, keys: seq<Key>, c: nat)
    requires Booked(s) && Books(s, t, keys) && c < |t.log.closings|
    ensures ClosedUntilSent(t, c)
  {
    var x := s.log.closings[c];
    assert ClosedUntilSent(s, c);
    if x.id == s.reqId {
      assert Under(t, Epoch(s), x.id);
    } else if s.keysRcvd[x.id] >= 0 {
      var b :| x.epoch <= b < Epoch(s) && Under(s, b, x.id);
      assert Under(t, b, x.id);
    }
  }

  lemma SendBooks(s: State, t: State, keys: seq<Key>)
    requires Booked(s) && Books(s, t, keys)
    ensures Booked(t)
  {
    NextId(Epoch(s));
    forall b | 0 <= b < Epoch(t) ensures Recorded(t, b) {
      if b < Epoch(s) { OldSizeStays(s, t, keys, b); }
    }
    forall c | 0 <= c < |t.log.closings| ensures ClosedUntilSent(t, c) {
      ReopenedBySending(s, t, keys, c);
    }
    forall c, d | 0 <= c < d < |t.log.closings| ensures SentAgain(t, c, d) {
      var x, y := s.log.closings[c], s.log.closings[d];
      assert SentAgain(s, c, d);
      SentStays(s, t, x.id, x.epoch, y.epoch);
    }
  }

  lemma SendBatchBooks(s: State, full: bool)
    requires Booked(s)
    ensures Booked(SendBatch(s, full))
  {
    if s.pending != [] {
      SendBooks(s, SendBatch(s, full), Travelling(s, full));
    }
  }

  /** Closing an open id: since its last closing it was sent again. */
  lemma CloseBooks(s: State, t: State, id: nat)
    requires Booked(s) && id < MAX_REQ_ID && s.keysRcvd[id] >= 0 && t == Closed(s, id)
    ensures Booked(t)
  {
    var n := |s.log.closings|;
    forall b | 0 <= b < Epoch(t) ensures Recorded(t, b) { assert Recorded(s, b); }
    forall c | 0 <= c < n + 1 ensures ClosedUntilSent(t, c) {
      if c < n {
        var x := s.log.closings[c];
        assert ClosedUntilSent(s, c);
        SentStays(s, t, x.id, x.epoch, Epoch(s));
      }
    }
    forall c, d | 0 <= c < d < n + 1 ensures SentAgain(t, c, d) {
      CloseSeparates(s, t, id, c, d);
    }
  }

  lemma CloseSeparates(s: State, t: State, id: nat, c: nat, d: nat)
    requires Booked(s) && id < MAX_REQ_ID && s.keysRcvd[id] >= 0 && t == Closed(s, id)
    requires c < d < |t.log.closings|
    ensures SentAgain(t, c, d)
  {
    var x, y := t.log.closings[c], t.log.closings[d];
    assert t.log.closings[c] == s.log.closings[c];
    assert ClosedUntilSent(s, c);
    if d < |s.log.closings| { assert SentAgain(s, c, d); }
    SentStays(s, t, x.id, x.epoch, y.epoch);
  }

  // ---- What a closing closes ----------------------------------------------------------------------------

  /** The newest of the first n batches under this id, or -1. */
  function Newest(s: State, id: nat, n: nat): (b: int)
    requires n <= Epoch(s)
    ensures -1 <= b < n
    ensures b >= 0 ==> Under(s, b, id)
  {
    if n == 0 then -1 else if s.log.batches[n - 1].id == id then n - 1 else Newest(s, id, n - 1)
  }

  lemma {:induction false} NewestIsLast(s: State, id: nat, n: nat, b: nat)
    requires n <= Epoch(s) && b < n && Under(s, b, id)
    ensures b <= Newest(s, id, n)
  {
    if b < n - 1 { NewestIsLast(s, id, n - 1, b); }
  }

  /** MAIN.  No batch is closed twice: two closings close different batches, in any run, except that ids which
      were never sent (-1) can be closed once each. */
  lemma ClosedOnce(s: State, c: nat, d: nat)
    requires Booked(s) && c < d < |s.log.closings|
    ensures var x, y := s.log.closings[c], s.log.closings[d];
      && x.epoch <= Epoch(s) && y.epoch <= Epoch(s)
      && (x.id == y.id ==> Newest(s, x.id, x.epoch) < Newest(s, y.id, y.epoch))
      && (Newest(s, x.id, x.epoch) >= 0 ==> Newest(s, x.id, x.epoch) != Newest(s, y.id, y.epoch))
  {
    var x, y := s.log.closings[c], s.log.closings[d];
    assert ClosedUntilSent(s, c) && ClosedUntilSent(s, d) && SentAgain(s, c, d);
    if x.id == y.id {
      var b :| x.epoch <= b < y.epoch && Under(s, b, x.id);
      NewestIsLast(s, y.id, y.epoch, b);
    }
  }
}
