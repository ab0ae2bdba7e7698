/** Two things that take a long run to go wrong: the 16 bit counter of outstanding requests wraps, and a request
    copies its own packet after it was freed. */
module LongRuns {
  import opened Bytes
  import opened Text
  import opened Wire
  import opened Protocol
  import opened Counting
  import opened Batching
  import opened Aging
  import opened Accounting
  import opened Runs
  import opened Service
  import opened Lifetime
  import opened Copies
  import opened Counterexamples

  // ---- Requests for one key each ------------------------------------------------------------------------

  /** One request for each key. */
  function OneByOne(ip: nat, reqId: u16, keys: seq<Key>): (es: seq<Event>)
    ensures |es| == |keys|
  {
    if keys == [] then []
    else OneByOne(ip, reqId, keys[..|keys| - 1]) + [FromClient(ip, GetRequest(reqId, [keys[|keys| - 1]]))]
  }

  lemma SizeOfOne(k: Key)
    ensures TotalSize([k]) == |k|
  {
    assert [k][..0] == [];
  }

  lemma OneRequest(s: State, ip: nat, reqId: u16, k: Key)
    requires Shaped(s) && ValidKey(k)
    ensures var e := FromClient(ip, GetRequest(reqId, [k]));
      Legal(e) && Step(s, e) == SendIfIdle(TakeKey(s, ip, reqId, k))
  {
    SizeOfOne(k);
    GetRequestReads(reqId, [k]);
    assert [k][..0] == [];
    assert TakeKeys(s, ip, reqId, [k]) == TakeKey(s, ip, reqId, k);
  }

  /** The states such requests lead through. */
  ghost predicate Asked(ss: seq<State>, ip: nat, reqId: u16, keys: seq<Key>) {
    && |ss| == |keys| + 1
    && forall i {:trigger AskedOne(ss, ip, reqId, keys, i)} :: 0 <= i < |keys| ==> AskedOne(ss, ip, reqId, keys, i)
  }

  ghost predicate AskedOne(ss: seq<State>, ip: nat, reqId: u16, keys: seq<Key>, i: nat)
    requires i < |keys| == |ss| - 1
  {
    Shaped(ss[i]) && ss[i + 1] == SendIfIdle(TakeKey(ss[i], ip, reqId, keys[i]))
  }

  /** Each of these states is in order. */
  ghost predicate AllSane(ss: seq<State>) {
    forall i {:trigger SaneAt(ss, i)} :: 0 <= i < |ss| ==> SaneAt(ss, i)
  }

  ghost predicate SaneAt(ss: seq<State>, i: nat)
    requires i < |ss|
  {
    Sane(ss[i])
  }

  lemma SaneLonger(front: seq<State>, t: State)
    requires AllSane(front) && Sane(t)
    ensures AllSane(front + [t])
  {
    var ss := front + [t];
    forall i | 0 <= i < |ss| ensures SaneAt(ss, i) { if i < |front| { assert SaneAt(front, i); } }
  }

  lemma AskedLonger(front: seq<State>, t: State, ip: nat, reqId: u16, keys: seq<Key>, k: Key)
    requires Asked(front, ip, reqId, keys) && Shaped(front[|keys|])
    requires t == SendIfIdle(TakeKey(front[|keys|], ip, reqId, k))
    ensures Asked(front + [t], ip, reqId, keys + [k])
  {
    forall i | 0 <= i < |keys| + 1
      ensures AskedOne(front + [t], ip, reqId, keys + [k], i)
    {
      if i < |keys| { assert AskedOne(front, ip, reqId, keys, i); }
    }
  }

  /** A run of such requests, and its states. */
  ghost predicate AskedIn(clock: nat -> int, ss: seq<State>, ip: nat, reqId: u16, keys: seq<Key>) {
    && var es := OneByOne(ip, reqId, keys);
    && AllLegal(es) && TidyRun(clock, es) && HonestRun(clock, es)
    && Asked(ss, ip, reqId, keys) && ss[0] == Initial(clock) && ss[|keys|] == Run(clock, es)
  }

  lemma OneMoreAsked(clock: nat -> int, front: seq<State>, t: State, ip: nat, reqId: u16, keys: seq<Key>, k: Key)
    requires AskedIn(clock, front, ip, reqId, keys) && ValidKey(k) && Sane(front[|keys|])
    requires t == SendIfIdle(TakeKey(front[|keys|], ip, reqId, k))
    ensures AskedIn(clock, front + [t], ip, reqId, keys + [k])
  {
    var es, e := OneByOne(ip, reqId, keys), FromClient(ip, GetRequest(reqId, [k]));
    OneRequest(front[|keys|], ip, reqId, k);
    RunOn(clock, es, e);
    AskedLonger(front, t, ip, reqId, keys, k);
    assert OneByOne(ip, reqId, keys + [k]) == es + [e] by { assert (keys + [k])[..|keys|] == keys; }
    assert (es + [e])[..|es|] == es;
  }

  lemma NothingAsked(clock: nat -> int, ip: nat, reqId: u16)
    ensures AskedIn(clock, [Initial(clock)], ip, reqId, []) && AllSane([Initial(clock)])
  {
    InitialIsGood(clock);
  }

  lemma NextAsked(clock: nat -> int, front: seq<State>, ip: nat, reqId: u16, keys: seq<Key>, k: Key)
    returns (ss: seq<State>)
    requires AskedIn(clock, front, ip, reqId, keys) && AllSane(front) && ValidKey(k)
    ensures AskedIn(clock, ss, ip, reqId, keys + [k]) && AllSane(ss)
  {
    assert SaneAt(front, |keys|);
    var u := TakeKey(front[|keys|], ip, reqId, k);
    var t := SendIfIdle(u);
    SaneTakeKey(front[|keys|], ip, reqId, k);
    SaneIdle(u);
    OneMoreAsked(clock, front, t, ip, reqId, keys, k);
    SaneLonger(front, t);
    ss := front + [t];
  }

  lemma {:induction false} AskedRun(clock: nat -> int, ip: nat, reqId: u16, keys: seq<Key>) returns (ss: seq<State>)
    requires ValidKeys(keys)
    ensures AskedIn(clock, ss, ip, reqId, keys) && AllSane(ss)
  {
    if keys == [] {
      ss := [Initial(clock)];
      NothingAsked(clock, ip, reqId);
    } else {
      var before, k := keys[..|keys| - 1], keys[|keys| - 1];
      assert before + [k] == keys;
      var front := AskedRun(clock, ip, reqId, before);
      ss := NextAsked(clock, front, ip, reqId, before, k);
    }
  }

  // ---- While the middlebox is idle, and when it is not -----------------------------------------------------

  /** Every request so far went out at once, and none was answered. */
  predicate Idle(s: State, n: nat) {
    && s.pending == [] && s.total == 0 && s.outstanding == n && s.log.debt == n && |s.log.batches| == n
  }

  /** One key waits while n requests are outstanding. */
  predicate Waiting(s: State, n: nat, k: Key) {
    s.pending == [k] && s.total == |k| && s.outstanding == n && s.log.debt == n && |s.log.batches| == n
  }

  lemma EmptyTakes(s: State, t: State, ip: nat, reqId: u16, n: nat, k: Key)
    requires Shaped(s) && Idle(s, n) && ValidKey(k) && t == TakeKey(s, ip, reqId, k)
    ensures Waiting(t, n, k) && t.log.batches == s.log.batches
  {
    assert [] + [k] == [k];
  }

  /** With room at the server it is sent at once. */
  lemma IdleSends(u: State, n: nat, k: Key)
    requires Shaped(u) && Waiting(u, n, k) && n < MIN_OUTSTANDING_REQ
    ensures Idle(SendIfIdle(u), n + 1)
  {}

  lemma BusyKeeps(u: State)
    requires Shaped(u) && u.outstanding >= MIN_OUTSTANDING_REQ
    ensures SendIfIdle(u) == u
  {}

  /** A second key that does not fit beside the first sends the first. */
  lemma WaitingSends(s: State, t: State, ip: nat, reqId: u16, n: nat, a: Key, b: Key)
    requires Shaped(s) && Waiting(s, n, a) && ValidKey(b) && a != b && |a| + |b| >= 1457
    requires t == TakeKey(s, ip, reqId, b)
    ensures
      && t.pending == [b] && t.total == |b| && t.outstanding == (n + 1) % WORD16
      && t.log.debt == n + 1 && |t.log.batches| == n + 1
  {
    var r := Register(InsertKey(s, b), ip, reqId, b);
    assert r.pending == [a] + [b] && Overfull(r);
    SizeOfOne(b);
  }

  // ---- The counter wraps ------------------------------------------------------------------------------------

  /** a, b, a, b and so on. */
  function Turn(a: Key, b: Key, i: nat): Key {
    if i % 2 == 0 then a else b
  }

  function Alternating(a: Key, b: Key, n: nat): (keys: seq<Key>)
    ensures |keys| == n
    ensures forall i :: 0 <= i < n ==> keys[i] == Turn(a, b, i)
  {
    seq(n, i requires 0 <= i => Turn(a, b, i))
  }

  lemma AlternatingValid(a: Key, b: Key, n: nat)
    requires ValidKey(a) && ValidKey(b)
    ensures ValidKeys(Alternating(a, b, n))
    ensures n > 0 ==> Alternating(a, b, n)[..n - 1] == Alternating(a, b, n - 1)
  {}

  lemma TurnsDiffer(a: Key, b: Key, i: nat)
    requires LargeKeys(a, b)
    ensures LargeKeys(Turn(a, b, i), Turn(a, b, i + 1))
  {}

  /** Too large to travel together. */
  predicate LargeKeys(a: Key, b: Key) {
    ValidKey(a) && ValidKey(b) && a != b && |a| + |b| >= 1457
  }

  /** After n alternating requests that nobody answers. */
  predicate Unanswered(s: State, a: Key, b: Key, n: nat) {
    if n <= MIN_OUTSTANDING_REQ then Idle(s, n) else Waiting(s, n - 1, Turn(a, b, n - 1))
  }

  /** A request while one key waits, and there is no room. */
  lemma WaitingGoesOn(s: State, u: State, t: State, ip: nat, reqId: u16, n: nat, a: Key, b: Key)
    requires Shaped(s) && Waiting(s, n, a) && LargeKeys(a, b) && MIN_OUTSTANDING_REQ <= n < WORD16 - 1
    requires u == TakeKey(s, ip, reqId, b) && t == SendIfIdle(u)
    ensures Waiting(t, n + 1, b)
  {
    WaitingSends(s, u, ip, reqId, n, a, b);
    NoWrap(n);
    BusyKeeps(u);
  }

  lemma NoWrap(n: nat)
    requires n < WORD16 - 1
    ensures (n + 1) % WORD16 == n + 1
  {}

  lemma OneMoreUnanswered(s: State, u: State, t: State, ip: nat, reqId: u16, a: Key, b: Key, n: nat)
    requires Shaped(s) && LargeKeys(a, b) && n < WORD16 && Unanswered(s, a, b, n)
    requires u == TakeKey(s, ip, reqId, Turn(a, b, n)) && t == SendIfIdle(u)
    ensures Unanswered(t, a, b, n + 1)
  {
    if n <= MIN_OUTSTANDING_REQ {
      EmptyTakes(s, u, ip, reqId, n, Turn(a, b, n));
      if n < MIN_OUTSTANDING_REQ { IdleSends(u, n, Turn(a, b, n)); } else { BusyKeeps(u); }
    } else {
      TurnsDiffer(a, b, n - 1);
      WaitingGoesOn(s, u, t, ip, reqId, n - 1, Turn(a, b, n - 1), Turn(a, b, n));
    }
  }

  lemma {:induction false} ManyUnanswered(ss: seq<State>, ip: nat, reqId: u16, a: Key, b: Key, keys: seq<Key>, n: nat)
    requires LargeKeys(a, b) && n <= |keys| && n <= WORD16 && Asked(ss, ip, reqId, keys)
    requires Unanswered(ss[0], a, b, 0) && keys[..n] == Alternating(a, b, n)
    ensures Unanswered(ss[n], a, b, n)
  {
    if n > 0 {
      AlternatingValid(a, b, n);
      assert keys[..n][..n - 1] == keys[..n - 1];
      ManyUnanswered(ss, ip, reqId, a, b, keys, n - 1);
      assert keys[..n][n - 1] == keys[n - 1];
      OneUnanswered(ss, ip, reqId, a, b, keys, n - 1);
    }
  }

  lemma OneUnanswered(ss: seq<State>, ip: nat, reqId: u16, a: Key, b: Key, keys: seq<Key>, n: nat)
    requires LargeKeys(a, b) && n < |keys| && n < WORD16 && Asked(ss, ip, reqId, keys) && keys[n] == Turn(a, b, n)
    requires Unanswered(ss[n], a, b, n)
    ensures Unanswered(ss[n + 1], a, b, n + 1)
  {
    assert AskedOne(ss, ip, reqId, keys, n);
    OneMoreUnanswered(ss[n], TakeKey(ss[n], ip, reqId, keys[n]), ss[n + 1], ip, reqId, a, b, n);
  }

  predicate OpenAt(counters: seq<int>, id: nat) {
    id < |counters| && counters[id] >= 0
  }

  /** Whatever is sent is open while nobody answers. */
  predicate AllOpen(s: State) {
    && |s.keysRcvd| == MAX_REQ_ID
    && forall id {:trigger OpenAt(s.keysRcvd, id)} :: 0 <= id < MAX_REQ_ID ==> OpenAt(s.keysRcvd, id)
  }

  lemma {:induction false} StaysOpen(ss: seq<State>, ip: nat, reqId: u16, keys: seq<Key>, n: nat)
    requires Asked(ss, ip, reqId, keys) && n <= |keys| && AllOpen(ss[0])
    ensures AllOpen(ss[n])
  {
    if n > 0 {
      StaysOpen(ss, ip, reqId, keys, n - 1);
      OneStaysOpen(ss, ip, reqId, keys, n - 1);
    }
  }

  lemma SendStaysOpen(s: State, full: bool)
    requires Shaped(s) && AllOpen(s)
    ensures AllOpen(SendBatch(s, full))
  {
    forall id | 0 <= id < MAX_REQ_ID ensures OpenAt(SendBatch(s, full).keysRcvd, id) { assert OpenAt(s.keysRcvd, id); }
  }

  lemma OneStaysOpen(ss: seq<State>, ip: nat, reqId: u16, keys: seq<Key>, n: nat)
    requires Asked(ss, ip, reqId, keys) && n < |keys| && AllOpen(ss[n])
    ensures AllOpen(ss[n + 1])
  {
    assert AskedOne(ss, ip, reqId, keys, n);
    var t := TakeKey(ss[n], ip, reqId, keys[n]);
    SendStaysOpen(Register(InsertKey(ss[n], keys[n]), ip, reqId, keys[n]), true);
    SendStaysOpen(t, false);
  }

  /** The request with which the counter wraps to 0, so that the key left waiting is sent as well. */
  lemma WrapOnce(s: State, t: State, ip: nat, reqId: u16, a: Key, b: Key)
    requires Shaped(s) && Waiting(s, WORD16 - 1, b) && LargeKeys(a, b)
    requires t == SendIfIdle(TakeKey(s, ip, reqId, a))
    ensures t.pending == [] && t.outstanding == 1 && t.log.debt == WORD16 + 1 && Epoch(t) == WORD16 + 1
  {
    WaitingSends(s, TakeKey(s, ip, reqId, a), ip, reqId, WORD16 - 1, b, a);
  }

  lemma AllAreOpen(s: State)
    requires Shaped(s) && AllOpen(s) && Epoch(s) >= MAX_REQ_ID
    ensures |OpenIds(s)| == MAX_REQ_ID
  {
    forall id
      ensures id in OpenIds(s) <==> id in UpTo(MAX_REQ_ID)
    {
      if 0 <= id < MAX_REQ_ID { assert OpenAt(s.keysRcvd, id) && IsOpen(s, id); }
    }
    assert OpenIds(s) == UpTo(MAX_REQ_ID);
  }

  lemma InitialIsUnanswered(s: State, clock: nat -> int, a: Key, b: Key)
    requires s == Initial(clock)
    ensures Unanswered(s, a, b, 0) && AllOpen(s)
  {
    forall id | 0 <= id < MAX_REQ_ID ensures OpenAt(s.keysRcvd, id) {}
  }

  /** MAIN.  65537 requests, alternating between two keys too large to travel together, while the server is
      silent: 60000 ids are open, 5537 of them sent twice, and the counter of outstanding requests is 1. */
  lemma CounterWraps(clock: nat -> int, ip: nat, reqId: u16, a: Key, b: Key, n: nat)
    requires LargeKeys(a, b) && n == WORD16 + 1
    ensures var es := OneByOne(ip, reqId, Alternating(a, b, n));
      && AllLegal(es) && HonestRun(clock, es)
      && var s := Run(clock, es);
      && s.outstanding == 1 && |OpenIds(s)| == MAX_REQ_ID && s.log.reissues == n - MAX_REQ_ID
  {
    AlternatingValid(a, b, n);
    var keys, es := Alternating(a, b, n), OneByOne(ip, reqId, Alternating(a, b, n));
    var ss := AskedRun(clock, ip, reqId, keys);
    InitialIsUnanswered(ss[0], clock, a, b);
    ManyUnanswered(ss, ip, reqId, a, b, keys, n - 1);
    LastWraps(ss, ip, reqId, a, b, keys);
    StaysOpen(ss, ip, reqId, keys, n);
    AllAreOpen(ss[n]);
    HonestRunsAccount(clock, es);
  }

  lemma LastWraps(ss: seq<State>, ip: nat, reqId: u16, a: Key, b: Key, keys: seq<Key>)
    requires LargeKeys(a, b) && keys == Alternating(a, b, WORD16 + 1) && Asked(ss, ip, reqId, keys)
    requires Unanswered(ss[WORD16], a, b, WORD16)
    ensures ss[WORD16 + 1].outstanding == 1 && ss[WORD16 + 1].log.debt == WORD16 + 1
    ensures Epoch(ss[WORD16 + 1]) == WORD16 + 1
  {
    assert AskedOne(ss, ip, reqId, keys, WORD16);
    WrapOnce(ss[WORD16], ss[WORD16 + 1], ip, reqId, a, b);
  }

  // ---- Rows made by new keys -------------------------------------------------------------------------------

  predicate NotHere(s: State, c: nat, k: Key)
    requires c < Created(s)
  {
    s.log.made[c].epoch != Epoch(s) || s.log.made[c].key != k
  }

  /** No row was made for this key in this epoch, and it is not pending. */
  ghost predicate Unseen(s: State, k: Key) {
    k !in s.pending && forall c :: 0 <= c < Created(s) ==> NotHere(s, c, k)
  }

  /** These keys fit beside the pending ones. */
  predicate Room(s: State, ks: seq<Key>) {
    s.total + TotalSize(ks) + |s.pending| + |ks| < MAX_PAYLOAD_LEN - |GETS| + 1
  }

  /** Each of these keys was added to the pending ones and made a row. */
  ghost predicate Filled(s: State, t: State, ks: seq<Key>) {
    && t.pending == s.pending + ks && t.total == s.total + TotalSize(ks) && t.outstanding == s.outstanding
    && t.reqId == s.reqId && t.log.batches == s.log.batches && |t.log.regs| == |s.log.regs| + |ks|
    && s.log.made <= t.log.made && Created(t) == Created(s) + |ks|
    && forall j :: 0 <= j < |ks| ==> MadeFor(t, Created(s) + j, Epoch(s), ks[j])
  }

  predicate MadeFor(t: State, c: nat, epoch: nat, k: Key) {
    c < Created(t) && t.log.made[c].epoch == epoch && t.log.made[c].key == k
  }

  lemma UnseenHasNoRow(s: State, k: Key)
    requires Ringed(s) && Unseen(s, k)
    ensures Signature(s.reqId, k) !in s.table
  {
    forall c | 0 <= c < Created(s)
      ensures s.log.made[c].epoch != Epoch(s) || s.log.made[c].key != k
    {
      assert NotHere(s, c, k);
    }
    if Signature(s.reqId, k) in s.table {
      NoAlias(s, k);
      assert false;
    }
  }

  lemma NewRow(s: State, t: State, ip: nat, reqId: u16, k: Key)
    requires Ringed(s) && Unseen(s, k) && t == TakeKey(s, ip, reqId, k)
    requires s.total + |k| + |s.pending| + 1 < MAX_PAYLOAD_LEN - |GETS| + 1
    ensures t.pending == s.pending + [k] && t.total == s.total + |k| && t.outstanding == s.outstanding
    ensures t.reqId == s.reqId && t.log.batches == s.log.batches && |t.log.regs| == |s.log.regs| + 1
    ensures t.log.made == s.log.made + [Made(Epoch(s), k, |s.log.regs|)]
  {
    UnseenHasNoRow(s, k);
  }

  ghost predicate AllUnseen(s: State, ks: seq<Key>) {
    DistinctKeys(ks) && forall j :: 0 <= j < |ks| ==> Unseen(s, ks[j])
  }

  lemma StillUnseen(s: State, t: State, ks: seq<Key>, k: Key)
    requires Filled(s, t, ks) && Unseen(s, k) && k !in ks
    ensures Unseen(t, k)
  {
    forall c | 0 <= c < Created(t)
      ensures NotHere(t, c, k)
    {
      if c < Created(s) {
        assert NotHere(s, c, k);
      } else {
        assert MadeFor(t, Created(s) + (c - Created(s)), Epoch(s), ks[c - Created(s)]);
      }
    }
  }

  lemma FilledOn(s: State, t: State, u: State, ks: seq<Key>, ip: nat, reqId: u16)
    requires ks != [] && Filled(s, t, ks[..|ks| - 1]) && Ringed(t) && Unseen(t, ks[|ks| - 1]) && Room(s, ks)
    requires u == TakeKey(t, ip, reqId, ks[|ks| - 1])
    ensures Filled(s, u, ks)
  {
    var n := |ks| - 1;
    NewRow(t, u, ip, reqId, ks[n]);
    assert ks[..n] + [ks[n]] == ks;
    forall j | 0 <= j < |ks|
      ensures MadeFor(u, Created(s) + j, Epoch(s), ks[j])
    {
      if j < n { assert MadeFor(t, Created(s) + j, Epoch(s), ks[..n][j]); }
    }
  }

  lemma FewerUnseen(s: State, ks: seq<Key>)
    requires ks != [] && AllUnseen(s, ks) && Room(s, ks)
    ensures AllUnseen(s, ks[..|ks| - 1]) && Room(s, ks[..|ks| - 1])
    ensures Unseen(s, ks[|ks| - 1]) && ks[|ks| - 1] !in ks[..|ks| - 1]
  {
    var front := ks[..|ks| - 1];
    forall j | 0 <= j < |front| ensures Unseen(s, front[j]) { assert Unseen(s, ks[j]); }
    assert Unseen(s, ks[|ks| - 1]);
  }

  // ---- Two ways to take key after key -----------------------------------------------------------------------

  /** A further key that is new and fits, taken in the middle of a request or as a request of its own. */
  lemma OneMade(s: State, t: State, u: State, ip: nat, reqId: u16, ks: seq<Key>)
    requires ks != [] && ValidKey(ks[|ks| - 1]) && AllUnseen(s, ks) && Room(s, ks)
    requires Sane(t) && Filled(s, t, ks[..|ks| - 1]) && u == TakeKey(t, ip, reqId, ks[|ks| - 1])
    ensures Filled(s, u, ks)
  {
    FewerUnseen(s, ks);
    StillUnseen(s, t, ks[..|ks| - 1], ks[|ks| - 1]);
    FilledOn(s, t, u, ks, ip, reqId);
  }

  lemma NothingFilled(s: State, ks: seq<Key>)
    requires ks == []
    ensures Filled(s, s, ks)
  {
    assert s.pending + ks == s.pending;
  }

  lemma SliceUnseen(s: State, keys: seq<Key>, from: nat, n: nat)
    requires from < n <= |keys| && AllUnseen(s, keys[from..n]) && Room(s, keys[from..n])
    ensures AllUnseen(s, keys[from..n - 1]) && Room(s, keys[from..n - 1])
  {
    assert keys[from..n][..n - from - 1] == keys[from..n - 1];
    FewerUnseen(s, keys[from..n]);
  }

  /** While there is no room at the server, new keys asked for one by one each make a row. */
  lemma {:induction false} AskedMade(ss: seq<State>, ip: nat, reqId: u16, keys: seq<Key>, from: nat, n: nat)
    requires from <= n <= |keys| && ValidKeys(keys) && Asked(ss, ip, reqId, keys)
    requires AllSane(ss) && ss[from].outstanding >= MIN_OUTSTANDING_REQ
    requires AllUnseen(ss[from], keys[from..n]) && Room(ss[from], keys[from..n])
    ensures Filled(ss[from], ss[n], keys[from..n])
  {
    if from == n {
      NothingFilled(ss[from], keys[from..n]);
    } else {
      SliceUnseen(ss[from], keys, from, n);
      AskedMade(ss, ip, reqId, keys, from, n - 1);
      assert SaneAt(ss, n - 1);
      OneAskedMade(ss, ip, reqId, keys, from, n - 1);
    }
  }

  lemma OneAskedMade(ss: seq<State>, ip: nat, reqId: u16, keys: seq<Key>, from: nat, n: nat)
    requires from <= n < |keys| && ValidKeys(keys) && Asked(ss, ip, reqId, keys) && Sane(ss[n])
    requires ss[from].outstanding >= MIN_OUTSTANDING_REQ && Filled(ss[from], ss[n], keys[from..n])
    requires AllUnseen(ss[from], keys[from..n + 1]) && Room(ss[from], keys[from..n + 1])
    ensures Filled(ss[from], ss[n + 1], keys[from..n + 1])
  {
    var ks := keys[from..n + 1];
    assert ks[..|ks| - 1] == keys[from..n] && ks[|ks| - 1] == keys[n];
    assert AskedOne(ss, ip, reqId, keys, n);
    OneMade(ss[from], ss[n], TakeKey(ss[n], ip, reqId, keys[n]), ip, reqId, ks);
  }

  /** The states the keys of one request lead through. */
  ghost predicate Taken(ss: seq<State>, ip: nat, reqId: u16, keys: seq<Key>) {
    && |ss| == |keys| + 1
    && forall i {:trigger TakenOne(ss, ip, reqId, keys, i)} :: 0 <= i < |keys| ==> TakenOne(ss, ip, reqId, keys, i)
  }

  ghost predicate TakenOne(ss: seq<State>, ip: nat, reqId: u16, keys: seq<Key>, i: nat)
    requires i < |keys| == |ss| - 1
  {
    && Shaped(ss[0]) && Shaped(ss[i]) && ss[i + 1] == TakeKey(ss[i], ip, reqId, keys[i])
    && ss[i + 1] == TakeKeys(ss[0], ip, reqId, keys[..i + 1])
  }

  lemma TakenLonger(front: seq<State>, t: State, ip: nat, reqId: u16, keys: seq<Key>, k: Key)
    requires Taken(front, ip, reqId, keys) && Shaped(front[0]) && Shaped(front[|keys|])
    requires front[|keys|] == TakeKeys(front[0], ip, reqId, keys) && t == TakeKey(front[|keys|], ip, reqId, k)
    ensures Taken(front + [t], ip, reqId, keys + [k])
    ensures t == TakeKeys(front[0], ip, reqId, keys + [k])
  {
    assert (keys + [k])[..|keys|] == keys && (keys + [k])[..|keys| + 1] == keys + [k];
    forall i | 0 <= i < |keys| + 1
      ensures TakenOne(front + [t], ip, reqId, keys + [k], i)
    {
      if i < |keys| {
        assert TakenOne(front, ip, reqId, keys, i);
        assert keys[..i + 1] == (keys + [k])[..i + 1];
      }
    }
  }

  /** A request taken from s on, and its states. */
  ghost predicate TakenIn(s: State, ss: seq<State>, ip: nat, reqId: u16, keys: seq<Key>) {
    && Taken(ss, ip, reqId, keys) && AllSane(ss) && ss[0] == s && Shaped(s)
    && ss[|keys|] == TakeKeys(s, ip, reqId, keys)
  }

  lemma NextTaken(s: State, front: seq<State>, ip: nat, reqId: u16, keys: seq<Key>, k: Key) returns (ss: seq<State>)
    requires TakenIn(s, front, ip, reqId, keys) && ValidKey(k)
    ensures TakenIn(s, ss, ip, reqId, keys + [k])
  {
    assert SaneAt(front, |keys|);
    var t := TakeKey(front[|keys|], ip, reqId, k);
    SaneTakeKey(front[|keys|], ip, reqId, k);
    TakenLonger(front, t, ip, reqId, keys, k);
    SaneLonger(front, t);
    ss := front + [t];
  }

  lemma {:induction false} TakenStates(s: State, ip: nat, reqId: u16, keys: seq<Key>) returns (ss: seq<State>)
    requires Sane(s) && ValidKeys(keys)
    ensures TakenIn(s, ss, ip, reqId, keys)
  {
    if keys == [] {
      ss := [s];
    } else {
      var before, k := keys[..|keys| - 1], keys[|keys| - 1];
      assert before + [k] == keys;
      var front := TakenStates(s, ip, reqId, before);
      ss := NextTaken(s, front, ip, reqId, before, k);
    }
  }

  /** From the state after some keys of a request on, new keys for which there is room each make a row. */
  lemma {:induction false} TakenMade(ss: seq<State>, ip: nat, reqId: u16, keys: seq<Key>, from: nat, n: nat)
    requires from <= n <= |keys| && ValidKeys(keys) && Taken(ss, ip, reqId, keys) && AllSane(ss)
    requires AllUnseen(ss[from], keys[from..n]) && Room(ss[from], keys[from..n])
    ensures Filled(ss[from], ss[n], keys[from..n])
  {
    if from == n {
      NothingFilled(ss[from], keys[from..n]);
    } else {
      SliceUnseen(ss[from], keys, from, n);
      TakenMade(ss, ip, reqId, keys, from, n - 1);
      assert SaneAt(ss, n - 1);
      OneTakenMade(ss, ip, reqId, keys, from, n - 1);
    }
  }

  lemma OneTakenMade(ss: seq<State>, ip: nat, reqId: u16, keys: seq<Key>, from: nat, n: nat)
    requires from <= n < |keys| && ValidKeys(keys) && Taken(ss, ip, reqId, keys) && Sane(ss[n])
    requires Filled(ss[from], ss[n], keys[from..n])
    requires AllUnseen(ss[from], keys[from..n + 1]) && Room(ss[from], keys[from..n + 1])
    ensures Filled(ss[from], ss[n + 1], keys[from..n + 1])
  {
    var ks := keys[from..n + 1];
    assert ks[..|ks| - 1] == keys[from..n] && ks[|ks| - 1] == keys[n];
    assert TakenOne(ss, ip, reqId, keys, n);
    OneMade(ss[from], ss[n], ss[n + 1], ip, reqId, ks);
  }

  // ---- 571 keys ------------------------------------------------------------------------------------------------

  const SINGLES := 254

  /** Any character but NUL and space. */
  function Character(i: nat): byte
    requires i < SINGLES
  {
    if i < 31 then i + 1 else i + 2
  }

  /** 254 keys of one character, then keys of two. */
  function Nth(i: nat): (k: Key)
    requires i < 3 * SINGLES
    ensures ValidKey(k) && |k| == if i < SINGLES then 1 else 2
  {
    if i < SINGLES then [Character(i)] else [64 + i / SINGLES, Character(i % SINGLES)]
  }

  lemma NthDiffer(i: nat, j: nat)
    requires i < j < 3 * SINGLES
    ensures Nth(i) != Nth(j)
  {
    assert i / SINGLES != j / SINGLES || i % SINGLES != j % SINGLES;
  }

  function First(n: nat): (ks: seq<Key>)
    requires n < 3 * SINGLES
    ensures |ks| == n && forall i :: 0 <= i < n ==> ks[i] == Nth(i)
    ensures ValidKeys(ks)
  {
    seq(n, i requires 0 <= i < n => Nth(i))
  }

  lemma FirstDistinct(n: nat)
    requires n < 3 * SINGLES
    ensures DistinctKeys(First(n))
    ensures forall j :: n <= j < 3 * SINGLES ==> Nth(j) !in First(n)
  {
    forall i, j | 0 <= i < j < 3 * SINGLES ensures Nth(i) != Nth(j) { NthDiffer(i, j); }
  }

  lemma {:induction false} FirstSize(n: nat)
    requires n < 3 * SINGLES
    ensures TotalSize(First(n)) == if n <= SINGLES then n else 2 * n - SINGLES
  {
    if n > 0 {
      FirstSize(n - 1);
      assert First(n)[..n - 1] == First(n - 1);
    }
  }

  // ---- A packet copied after it was freed ---------------------------------------------------------------------

  /** After a batch went out the newest row is of an earlier epoch, so nothing has been made in this one. */
  lemma NothingSeen(s: State, k: Key)
    requires Ringed(s) && (s.log.made == [] || Latest(s) < Epoch(s)) && k !in s.pending
    ensures Unseen(s, k)
  {
    forall c | 0 <= c < Created(s) ensures NotHere(s, c, k) { assert Paced(s, c); }
  }

  lemma IdleIsPast(s: State, t: State, ip: nat, reqId: u16, n: nat, k: Key)
    requires Ringed(s) && Idle(s, n) && n < MIN_OUTSTANDING_REQ && ValidKey(k)
    requires t == SendIfIdle(TakeKey(s, ip, reqId, k))
    ensures t.log.made != [] && Latest(t) < Epoch(t)
  {
    var i := InsertKey(s, k);
    RingOnly(s, i);
    RegisterAges(i, ip, reqId, k);
    EmptyTakes(s, TakeKey(s, ip, reqId, k), ip, reqId, n, k);
  }

  /** A thousand requests that nobody answers leave the middlebox with no key waiting and no room. */
  lemma Warm(ss: seq<State>, clock: nat -> int, ip: nat, reqId: u16, a: Key, b: Key, keys: seq<Key>, n: nat)
    requires LargeKeys(a, b) && n == MIN_OUTSTANDING_REQ && n <= |keys| && keys[..n] == Alternating(a, b, n)
    requires Asked(ss, ip, reqId, keys) && ss[0] == Initial(clock) && AllSane(ss)
    ensures Idle(ss[n], n) && ss[n].log.made != [] && Latest(ss[n]) < Epoch(ss[n])
  {
    AlternatingValid(a, b, n);
    assert keys[..n][..n - 1] == keys[..n - 1] && keys[..n][n - 1] == keys[n - 1];
    InitialIsUnanswered(ss[0], clock, a, b);
    ManyUnanswered(ss, ip, reqId, a, b, keys, n - 1);
    ManyUnanswered(ss, ip, reqId, a, b, keys, n);
    assert AskedOne(ss, ip, reqId, keys, n - 1) && SaneAt(ss, n - 1);
    IdleIsPast(ss[n - 1], ss[n], ip, reqId, n - 1, keys[n - 1]);
  }

  const FILL := 570
  const MORE := 32

  /** The keys of the last request: the first key once more, one that overflows the batch, and 32 keys for the
      next batch. */
  function LastKeys(): (ks: seq<Key>)
    ensures |ks| == MORE + 2 && ValidKeys(ks)
  {
    [Nth(0), Nth(FILL)] + First(MORE)
  }

  /** The 570 keys fill the batch up to its last characters. */
  lemma FillUp(ss: seq<State>, ip: nat, reqId: u16, keys: seq<Key>, n: nat)
    requires ValidKeys(keys) && |keys| == n + FILL && keys[n..] == First(FILL) && n == MIN_OUTSTANDING_REQ
    requires Asked(ss, ip, reqId, keys) && AllSane(ss)
    requires Idle(ss[n], n) && ss[n].log.made != [] && Latest(ss[n]) < Epoch(ss[n])
    ensures Filled(ss[n], ss[n + FILL], First(FILL))
    ensures ss[n + FILL].pending == First(FILL) && ss[n + FILL].total == 886
  {
    var ks := First(FILL);
    assert SaneAt(ss, n);
    FirstDistinct(FILL);
    FirstSize(FILL);
    forall j | 0 <= j < |ks| ensures Unseen(ss[n], ks[j]) { NothingSeen(ss[n], ks[j]); }
    assert keys[n..n + FILL] == ks;
    AskedMade(ss, ip, reqId, keys, n, n + FILL);
    assert [] + ks == ks;
  }

  /** The first key is pending already. */
  lemma FirstAgain(t: State, u: State, ip: nat, reqId: u16)
    requires Shaped(t) && t.pending == First(FILL) && t.total == 886 && u == TakeKey(t, ip, reqId, Nth(0))
    ensures u.pending == t.pending && u.total == t.total
  {
    assert First(FILL)[0] == Nth(0);
  }

  /** The next one overflows. */
  lemma Overflow(u: State, i: State, r: State, ip: nat, reqId: u16)
    requires Shaped(u) && u.pending == First(FILL) && u.total == 886
    requires i == InsertKey(u, Nth(FILL)) && r == Register(i, ip, reqId, Nth(FILL))
    ensures r.pending == First(FILL) + [Nth(FILL)] && Overfull(r)
    ensures TakeKey(u, ip, reqId, Nth(FILL)) == SendBatch(r, true)
    ensures SendBatch(r, true).pending == [Nth(FILL)] && SendBatch(r, true).total == 2
  {
    FirstDistinct(FILL);
    SizeOfOne(Nth(FILL));
  }

  lemma OverflowsOn(t: State, u: State, v: State, ip: nat, reqId: u16)
    requires Sane(t) && t.pending == First(FILL) && t.total == 886
    requires u == TakeKey(t, ip, reqId, Nth(0)) && v == TakeKey(u, ip, reqId, Nth(FILL))
    ensures Sane(v) && v.pending == [Nth(FILL)] && v.total == 2
    ensures v.log.made != [] && Latest(v) < Epoch(v)
  {
    SaneTakeKey(t, ip, reqId, Nth(0));
    FirstAgain(t, u, ip, reqId);
    SaneTakeKey(u, ip, reqId, Nth(FILL));
    var i := InsertKey(u, Nth(FILL));
    var r := Register(i, ip, reqId, Nth(FILL));
    Overflow(u, i, r, ip, reqId);
    OverflowAges(u, i, r, v, ip, reqId, Nth(FILL));
  }

  lemma NewToNext(s: State)
    requires Ringed(s) && s.pending == [Nth(FILL)] && s.total == 2 && s.log.made != [] && Latest(s) < Epoch(s)
    ensures AllUnseen(s, First(MORE - 1)) && Room(s, First(MORE - 1))
  {
    var ks := First(MORE - 1);
    FirstDistinct(MORE - 1);
    FirstSize(MORE - 1);
    forall j | 0 <= j < |ks| ensures Unseen(s, ks[j]) {
      NthDiffer(j, FILL);
      NothingSeen(s, ks[j]);
    }
  }

  /** Each key of the next batch makes a row. */
  lemma NextBatch(ss: seq<State>, ip: nat, reqId: u16)
    requires Taken(ss, ip, reqId, LastKeys()) && AllSane(ss)
    requires ss[2].pending == [Nth(FILL)] && ss[2].total == 2 && ss[2].log.made != [] && Latest(ss[2]) < Epoch(ss[2])
    ensures Created(ss[MORE + 1]) == Created(ss[2]) + MORE - 1
  {
    assert LastKeys()[2..MORE + 1] == First(MORE - 1) && SaneAt(ss, 2);
    NewToNext(ss[2]);
    TakenMade(ss, ip, reqId, LastKeys(), 2, MORE + 1);
  }

  /** The first two keys of the last request. */
  lemma FirstTwo(ss: seq<State>, ip: nat, reqId: u16)
    requires Taken(ss, ip, reqId, LastKeys()) && Sane(ss[0]) && ss[0].pending == First(FILL) && ss[0].total == 886
    ensures ss[2].pending == [Nth(FILL)] && ss[2].total == 2 && ss[2].log.made != [] && Latest(ss[2]) < Epoch(ss[2])
    ensures Created(ss[1]) <= Created(ss[0]) + 1 && |ss[1].log.regs| == |ss[0].log.regs| + 1
  {
    assert TakenOne(ss, ip, reqId, LastKeys(), 0) && TakenOne(ss, ip, reqId, LastKeys(), 1);
    OverflowsOn(ss[0], ss[1], ss[2], ip, reqId);
    AtMostOneMade(ss[0], ss[1], ip, reqId, Nth(0));
  }

  lemma AtMostOneMade(s: State, t: State, ip: nat, reqId: u16, k: Key)
    requires Shaped(s) && t == TakeKey(s, ip, reqId, k)
    ensures Created(t) <= Created(s) + 1 && |t.log.regs| == |s.log.regs| + 1
  {}

  lemma {:induction false} TakenExtends(ss: seq<State>, ip: nat, reqId: u16, keys: seq<Key>, i: nat, j: nat)
    requires Taken(ss, ip, reqId, keys) && i <= j <= |keys|
    ensures Extends(ss[i], ss[j])
  {
    if i < j {
      TakenExtends(ss, ip, reqId, keys, i, j - 1);
      OneTakenExtends(ss, ip, reqId, keys, j - 1);
      ExtendsOn(ss[i], ss[j - 1], ss[j]);
    }
  }

  lemma OneTakenExtends(ss: seq<State>, ip: nat, reqId: u16, keys: seq<Key>, i: nat)
    requires Taken(ss, ip, reqId, keys) && i < |keys|
    ensures Extends(ss[i], ss[i + 1])
  {
    assert TakenOne(ss, ip, reqId, keys, i);
    TakeKeyExtends(ss[i], ss[i + 1], ip, reqId, keys[i]);
  }

  lemma FarEnough(s: State, t: State, u: State, w: State)
    requires Shaped(s) && Shaped(t) && t.reqId == s.reqId == Epoch(s) % MAX_REQ_ID
    requires MadeFor(t, Created(s), Epoch(s), Nth(0)) && Created(t) == Created(s) + FILL
    requires Created(u) <= Created(t) + 1 && |u.log.regs| == |t.log.regs| + 1
    requires Extends(t, w) && Extends(u, w) && Created(w) >= Created(t) + MORE - 1
    ensures Reused(w, |t.log.regs|, Signature(t.reqId, Nth(0)))
  {
    var c := Created(s) + MAP_ENTRIES;
    assert w.log.made[Created(s)] == t.log.made[Created(s)];
    assert MadeSince(w, c, |u.log.regs|);
    assert Reuses(w, c, |t.log.regs|, Signature(t.reqId, Nth(0)));
  }

  /** The slot of the first row is reused before the last copy is taken. */
  lemma SlotReused(s: State, ss: seq<State>, ip: nat, reqId: u16)
    requires Sane(s) && Taken(ss, ip, reqId, LastKeys()) && AllSane(ss)
    requires Filled(s, ss[0], First(FILL)) && ss[0].pending == First(FILL) && ss[0].total == 886
    ensures Reused(ss[MORE + 1], |ss[0].log.regs|, Signature(ss[0].reqId, Nth(0)))
  {
    assert SaneAt(ss, 0);
    FirstTwo(ss, ip, reqId);
    NextBatch(ss, ip, reqId);
    TakenExtends(ss, ip, reqId, LastKeys(), 0, MORE + 1);
    TakenExtends(ss, ip, reqId, LastKeys(), 1, MORE + 1);
    TakenExtends(ss, ip, reqId, LastKeys(), 0, 2);
    assert MadeFor(ss[0], Created(s) + 0, Epoch(s), First(FILL)[0]);
    FarEnough(s, ss[0], ss[1], ss[MORE + 1]);
  }

  lemma LastKeysSize()
    ensures TotalSize(LastKeys()) == MORE + 3
  {
    SizeOfOne(Nth(0));
    assert [Nth(0), Nth(FILL)][..1] == [Nth(0)];
    FirstSize(MORE);
    SizeOfBoth([Nth(0), Nth(FILL)], First(MORE));
  }

  lemma {:induction false} SizeOfBoth(a: seq<Key>, b: seq<Key>)
    ensures TotalSize(a + b) == TotalSize(a) + TotalSize(b)
  {
    if b == [] {
      assert a + b == a;
    } else {
      SizeOfBoth(a, b[..|b| - 1]);
      assert (a + b)[..|a + b| - 1] == a + b[..|b| - 1];
    }
  }

  /** The run before the last request. */
  lemma RunUp(clock: nat -> int, ip: nat, reqId: u16, a: Key, b: Key, n: nat, keys: seq<Key>)
    returns (s: State, t: State)
    requires LargeKeys(a, b) && n == MIN_OUTSTANDING_REQ && keys == Alternating(a, b, n) + First(FILL)
    ensures var es := OneByOne(ip, reqId, keys);
      AllLegal(es) && TidyRun(clock, es) && t == Run(clock, es)
    ensures Sane(s) && Sane(t) && Filled(s, t, First(FILL)) && t.pending == First(FILL) && t.total == 886
  {
    AlternatingValid(a, b, n);
    assert keys[..n] == Alternating(a, b, n) && keys[n..] == First(FILL);
    var ss := AskedRun(clock, ip, reqId, keys);
    Warm(ss, clock, ip, reqId, a, b, keys, n);
    FillUp(ss, ip, reqId, keys, n);
    s, t := ss[n], ss[n + FILL];
    assert SaneAt(ss, n) && SaneAt(ss, n + FILL);
  }

  lemma LastReuses(s: State, t: State, ip: nat, reqId: u16)
    requires Sane(s) && Sane(t) && Filled(s, t, First(FILL)) && t.pending == First(FILL) && t.total == 886
    ensures Reused(TakeKeys(t, ip, reqId, LastKeys()[..MORE + 1]), |t.log.regs|, Signature(t.reqId, Nth(0)))
  {
    var ss := TakenStates(t, ip, reqId, LastKeys());
    SlotReused(s, ss, ip, reqId);
    assert TakenOne(ss, ip, reqId, LastKeys(), MORE);
  }

  lemma Unsound(clock: nat -> int, es: seq<Event>, t: State, ip: nat, reqId: u16)
    requires AllLegal(es) && TidyRun(clock, es) && t == Run(clock, es)
    requires Reused(TakeKeys(t, ip, reqId, LastKeys()[..MORE + 1]), |t.log.regs|, Signature(t.reqId, Nth(0)))
    ensures var last := FromClient(ip, GetRequest(reqId, LastKeys()));
      && Legal(last) && |last.dg| == 82 && !CopiesSound(t, last)
      && FirstNode(t, ip, reqId) in TakeKeys(t, ip, reqId, LastKeys()[..MORE + 1]).log.freed
  {
    TidyRunsConserve(clock, es);
    TidyRunsLast(clock, es);
    LastKeysSize();
    GetRequestReads(reqId, LastKeys());
    MessageSpaced(LastKeys());
    MessageLength(LastKeys());
    assert !CopySound(t, ip, reqId, LastKeys(), MORE + 1);
    CopyOfOwnPacket(t, ip, reqId, LastKeys(), MORE + 1);
  }

  /** MAIN.  A thousand requests nobody answers, 570 requests for new keys, one each, and a request for 34 keys in
      a datagram of 82 bytes: when its last key is registered, with a copy of its packet, the packet has been
      freed. */
  lemma CopyOfFreedHappens(clock: nat -> int, ip: nat, reqId: u16, a: Key, b: Key, n: nat)
    requires LargeKeys(a, b) && n == MIN_OUTSTANDING_REQ
    ensures var es, last := OneByOne(ip, reqId, Alternating(a, b, n) + First(FILL)),
                            FromClient(ip, GetRequest(reqId, LastKeys()));
      && AllLegal(es) && TidyRun(clock, es) && Legal(last) && |last.dg| == 82
      && var s := Run(clock, es);
      && FirstNode(s, ip, reqId) in TakeKeys(s, ip, reqId, LastKeys()[..MORE + 1]).log.freed
      && !CopiesSound(s, last)
  {
    var keys := Alternating(a, b, n) + First(FILL);
    var s, t := RunUp(clock, ip, reqId, a, b, n, keys);
    LastReuses(s, t, ip, reqId);
    Unsound(clock, OneByOne(ip, reqId, keys), t, ip, reqId);
  }
}
