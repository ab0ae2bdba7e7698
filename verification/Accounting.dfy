/** The number of outstanding requests: what `outstanding_req` and `keys_rcvd` say about the requests still
    open while the server answers only what it was asked, and what that makes the middlebox do. */
module Accounting {
  import opened Bytes
  import opened Text
  import opened Wire
  import opened Protocol
  import opened Counting

  // ---- Open requests ------------------------------------------------------------------------------

  /** How many different ids have ever been sent. */
  function Issued(s: State): nat {
    if Epoch(s) < MAX_REQ_ID then Epoch(s) else MAX_REQ_ID
  }

  predicate IsOpen(s: State, id: int)
    requires Shaped(s)
  {
    0 <= id < Issued(s) && s.keysRcvd[id] >= 0
  }

  /** The ids sent and not yet taken for fulfilled. */
  function OpenIds(s: State): set<int>
    requires Shaped(s)
  {
    set id | id in UpTo(Issued(s)) && IsOpen(s, id)
  }

  /** An open id has had at most half of its keys answered. */
  predicate Halfway(s: State, id: nat)
    requires Shaped(s) && id < MAX_REQ_ID
  {
    s.keysRcvd[id] >= 0 ==> s.keysRcvd[id] <= s.keysSent[id] / 2
  }

  /** What was closed had been sent. */
  predicate Earned(s: State, c: nat)
    requires c < |s.log.closings|
  {
    s.log.closings[c].id < s.log.closings[c].epoch <= Epoch(s)
  }

  ghost predicate Accounted(s: State) {
    && Shaped(s)
    && s.reqId == Epoch(s) % MAX_REQ_ID
    && s.outstanding == s.log.debt % WORD16
    && s.log.debt == |OpenIds(s)| + s.log.reissues
    && (forall id :: 0 <= id < Issued(s) ==> Halfway(s, id))
    && (forall c :: 0 <= c < |s.log.closings| ==> Earned(s, c))
  }

  /** What `outstanding_req` tells of the open requests. */
  predicate CounterTells(s: State)
    requires Shaped(s)
  {
    var open := |OpenIds(s)|;
    && open <= MAX_REQ_ID
    && s.outstanding == (open + s.log.reissues) % WORD16
    && (s.outstanding == open <==> s.log.reissues % WORD16 == 0)
    && (s.outstanding >= open <==> open + s.log.reissues % WORD16 < WORD16)
  }

  /** MAIN.  What the counter means.  It is the number of open requests plus that of batches sent under an id
      still open since the last timeout, modulo 65536: exact if and only if the latter is a multiple of 65536,
      and at least the number of open requests if and only if the sum does not pass a multiple of it. */
  lemma OutstandingMeaning(s: State)
    requires Accounted(s)
    ensures CounterTells(s)
    ensures forall id :: id in OpenIds(s) ==> 0 <= s.keysRcvd[id] <= s.keysSent[id] / 2
  {
    SubsetSize(OpenIds(s), UpTo(Issued(s)));
    WrapSum(|OpenIds(s)|, s.log.reissues);
    forall id | id in OpenIds(s)
      ensures 0 <= s.keysRcvd[id] <= s.keysSent[id] / 2
    {
      assert IsOpen(s, id) && Halfway(s, id);
    }
  }

  lemma WrapSum(a: nat, b: nat)
    requires a < WORD16
    ensures (a + b) % WORD16 == if a + b % WORD16 < WORD16 then a + b % WORD16 else a + b % WORD16 - WORD16
  {}

  // ---- Steps -------------------------------------------------------------------------------------------

  predicate SameAccounts(s: State, t: State) {
    && t.reqId == s.reqId && t.outstanding == s.outstanding
    && t.keysSent == s.keysSent && t.keysRcvd == s.keysRcvd
    && t.log.batches == s.log.batches && t.log.debt == s.log.debt && t.log.reissues == s.log.reissues
    && t.log.closings == s.log.closings
  }

  lemma SameOpen(s: State, t: State)
    requires Shaped(s) && Shaped(t) && Epoch(s) == Epoch(t)
    requires forall id :: 0 <= id < Issued(s) ==> (IsOpen(s, id) <==> IsOpen(t, id))
    ensures OpenIds(s) == OpenIds(t)
  {}

  lemma AccountsOnly(s: State, t: State)
    requires Accounted(s) && Shaped(t) && SameAccounts(s, t)
    ensures Accounted(t)
  {
    SameOpen(s, t);
    forall id | 0 <= id < Issued(t) ensures Halfway(t, id) { assert Halfway(s, id); }
    forall c | 0 <= c < |t.log.closings| ensures Earned(t, c) { assert Earned(s, c); }
  }

  /** What sending does to the counters. */
  ghost predicate Issues(s: State, t: State, keys: seq<Key>) {
    && Shaped(s) && Shaped(t) && s.reqId == Epoch(s) % MAX_REQ_ID
    && t.reqId == (s.reqId + 1) % MAX_REQ_ID
    && t.outstanding == (s.outstanding + 1) % WORD16
    && t.keysRcvd == s.keysRcvd[s.reqId := 0]
    && t.keysSent == s.keysSent[s.reqId := |keys|]
    && t.log.batches == s.log.batches + [Batch(s.reqId, keys)]
    && t.log.debt == s.log.debt + 1 && t.log.closings == s.log.closings
    && t.log.reissues == s.log.reissues + if s.reqId < Epoch(s) && s.keysRcvd[s.reqId] >= 0 then 1 else 0
  }

  lemma OpenAfter(s: State, t: State, keys: seq<Key>, id: int)
    requires Issues(s, t, keys)
    ensures IsOpen(t, id) <==> IsOpen(s, id) || id == s.reqId
  {
    CurrentId(Epoch(s));
  }

  /** Sending opens the current id. */
  lemma SendOpens(s: State, t: State, keys: seq<Key>)
    requires Issues(s, t, keys)
    ensures OpenIds(t) == OpenIds(s) + {s.reqId}
  {
    forall id
      ensures id in OpenIds(t) <==> id in OpenIds(s) || id == s.reqId
    {
      OpenAfter(s, t, keys, id);
    }
  }

  /** It was open already only if it is being sent again. */
  lemma OpenBefore(s: State)
    requires Shaped(s) && s.reqId == Epoch(s) % MAX_REQ_ID
    ensures s.reqId in OpenIds(s) <==> s.reqId < Epoch(s) && s.keysRcvd[s.reqId] >= 0
  {
    CurrentId(Epoch(s));
    assert IsOpen(s, s.reqId) <==> s.reqId < Epoch(s) && s.keysRcvd[s.reqId] >= 0;
  }

  lemma WrapUp(n: nat)
    ensures (n % WORD16 + 1) % WORD16 == (n + 1) % WORD16
  {}

  lemma IssueOwes(s: State, t: State, keys: seq<Key>)
    requires Accounted(s) && Issues(s, t, keys)
    ensures t.log.debt == |OpenIds(t)| + t.log.reissues
  {
    SendOpens(s, t, keys);
    OpenBefore(s);
    if s.reqId in OpenIds(s) {
      assert OpenIds(t) == OpenIds(s);
    } else {
      assert |OpenIds(t)| == |OpenIds(s)| + 1;
    }
  }

  lemma IssueHalfway(s: State, t: State, keys: seq<Key>, id: nat)
    requires Accounted(s) && Issues(s, t, keys) && id < Issued(t)
    ensures Halfway(t, id)
  {
    CurrentId(Epoch(s));
    if id != s.reqId { assert Halfway(s, id); }
  }

  lemma IssueNumbers(s: State, t: State, keys: seq<Key>)
    requires s.log.debt >= 0 && s.outstanding == s.log.debt % WORD16 && Issues(s, t, keys)
    ensures t.outstanding == t.log.debt % WORD16 && t.reqId == Epoch(t) % MAX_REQ_ID
  {
    WrapUp(s.log.debt);
    NextId(Epoch(s));
  }

  lemma IssueAccounts(s: State, t: State, keys: seq<Key>)
    requires Accounted(s) && Issues(s, t, keys)
    ensures Accounted(t)
  {
    IssueNumbers(s, t, keys);
    IssueOwes(s, t, keys);
    forall id | 0 <= id < Issued(t) ensures Halfway(t, id) { IssueHalfway(s, t, keys, id); }
    forall c | 0 <= c < |t.log.closings| ensures Earned(t, c) { assert Earned(s, c); }
  }

  lemma SendAccounts(s: State, full: bool)
    requires Accounted(s)
    ensures Accounted(SendBatch(s, full))
  {
    if s.pending != [] {
      IssueAccounts(s, SendBatch(s, full), Travelling(s, full));
    }
  }

  lemma TakeKeyAccounts(s: State, ip: nat, reqId: u16, key: Key)
    requires Accounted(s)
    ensures Accounted(TakeKey(s, ip, reqId, key))
  {
    var r := Register(InsertKey(s, key), ip, reqId, key);
    AccountsOnly(s, r);
    if Overfull(r) { SendAccounts(r, true); }
  }

  /** The server answers only what it was asked. */
  predicate Honest(s: State, dg: seq<byte>) {
    IsDatagram(dg) && ReqIdOf(dg) < Issued(s)
  }

  lemma CloseOpens(s: State, id: nat)
    requires Shaped(s) && id < MAX_REQ_ID
    ensures Shaped(Closed(s, id)) && OpenIds(Closed(s, id)) == OpenIds(s) - {id}
  {
    var t := Closed(s, id);
    forall x
      ensures x in OpenIds(t) <==> x in OpenIds(s) && x != id
    {
      assert IsOpen(t, x) <==> IsOpen(s, x) && x != id;
    }
  }

  /** Closing an open id: something was owed, and one less is owed now. */
  lemma CloseOwes(s: State, t: State, id: nat)
    requires Accounted(s) && id < Issued(s) && s.keysRcvd[id] >= 0 && t == Closed(s, id)
    ensures s.log.debt >= 1
    ensures t.log.debt == |OpenIds(t)| + t.log.reissues
  {
    CloseOpens(s, id);
    assert IsOpen(s, id) && id in OpenIds(s);
    assert |OpenIds(s) - {id}| == |OpenIds(s)| - 1;
  }

  lemma WrapDown(n: nat)
    requires n >= 1
    ensures (n % WORD16 + WORD16 - 1) % WORD16 == (n - 1) % WORD16
  {}

  lemma CloseAccounts(s: State, id: nat)
    requires Accounted(s) && id < Issued(s) && s.keysRcvd[id] >= 0
    ensures s.log.debt >= 1
    ensures s.log.debt < WORD16 ==> s.outstanding >= 1
    ensures Accounted(Closed(s, id))
  {
    var t := Closed(s, id);
    CloseOwes(s, t, id);
    WrapDown(s.log.debt);
    forall x | 0 <= x < Issued(t) ensures Halfway(t, x) { assert Halfway(s, x); }
    forall c | 0 <= c < |t.log.closings| ensures Earned(t, c) {
      if c < |s.log.closings| { assert Earned(s, c); }
    }
  }

  lemma RaiseAccounts(s: State, id: nat)
    requires Accounted(s) && id < Issued(s) && 0 <= s.keysRcvd[id] && s.keysRcvd[id] + 1 <= s.keysSent[id] / 2
    ensures Accounted(Answered(s, id))
  {
    var t := Answered(s, id);
    forall x | 0 <= x < Issued(s) ensures IsOpen(s, x) <==> IsOpen(t, x) {}
    SameOpen(s, t);
    forall x | 0 <= x < Issued(t) ensures Halfway(t, x) { assert Halfway(s, x); }
    forall c | 0 <= c < |t.log.closings| ensures Earned(t, c) { assert Earned(s, c); }
  }

  lemma CountAccounts(s: State, dg: seq<byte>)
    requires Accounted(s) && Honest(s, dg)
    ensures Accounted(CountReply(s, dg))
  {
    var id := ReqIdOf(dg);
    if Counts(s, dg) {
      if Fulfils(s, dg) {
        CloseAccounts(s, id);
        SendAccounts(Closed(s, id), false);
      } else {
        RaiseAccounts(s, id);
      }
    }
  }

  lemma ServerAccounts(s: State, dg: seq<byte>)
    requires Accounted(s) && Honest(s, dg)
    ensures Accounted(ServerIn(s, dg))
  {
    AccountsOnly(s, Named(s, dg));
    if Fits(dg) && Looked(s, dg) in s.table {
      AccountsOnly(s, Fanned(s, dg));
      CountAccounts(Fanned(s, dg), dg);
      AccountsOnly(CountReply(Fanned(s, dg), dg), Counted(s, dg));
      AccountsOnly(Counted(s, dg), ServerIn(s, dg));
    }
  }

  /** A timeout forgives everything. */
  lemma ResetAccounts(s: State)
    requires Accounted(s)
    ensures Accounted(Forgiven(s))
  {
    var t := Forgiven(s);
    forall id ensures id !in OpenIds(t) { assert !IsOpen(t, id); }
    assert OpenIds(t) == {};
    forall c | 0 <= c < |t.log.closings| ensures Earned(t, c) { assert Earned(s, c); }
  }

  lemma TimeoutAccounts(s: State)
    requires Accounted(s)
    ensures Accounted(CheckTimeout(s))
  {
    AccountsOnly(s, Ticked(s));
    ResetAccounts(Ticked(s));
    SendAccounts(Forgiven(Ticked(s)), false);
  }

  lemma RefreshAccounts(s: State)
    requires Accounted(s)
    ensures Accounted(Refresh(s))
  {
    AccountsOnly(s, StartClock(s));
    TimeoutAccounts(StartClock(s));
  }

  // ---- Work conservation -----------------------------------------------------------------------------------

  /** Keys wait only while the server has enough to do. */
  predicate Busy(s: State) {
    s.pending != [] ==> s.outstanding >= MIN_OUTSTANDING_REQ
  }

  /** MAIN.  Every event leaves keys waiting only if at least 1000 requests are outstanding. */
  lemma StepKeepsBusy(s: State, e: Event)
    requires Shaped(s) && Busy(s) && Legal(e)
    ensures Busy(Step(s, e))
  {
    match e
    case FromClient(ip, dg) =>
    case FromServer(dg) => ServerKeepsBusy(s, dg);
    case Timer =>
  }

  lemma CountKeepsBusy(s: State, dg: seq<byte>)
    requires Shaped(s) && Busy(s) && IsDatagram(dg) && ReqIdOf(dg) < MAX_REQ_ID
    ensures Busy(CountReply(s, dg))
  {}

  lemma ServerKeepsBusy(s: State, dg: seq<byte>)
    requires Shaped(s) && Busy(s) && IsDatagram(dg) && ReqIdOf(dg) < MAX_REQ_ID
    ensures Busy(ServerIn(s, dg))
  {
    if Fits(dg) && Looked(s, dg) in s.table {
      CountKeepsBusy(Fanned(s, dg), dg);
    }
  }

  /** MAIN.  After the timer nothing is pending, or less than the timeout had passed since the last send
      when it looked. */
  lemma TimerFlushes(s: State)
    requires Shaped(s)
    ensures var t := Refresh(s);
      && (t.pending == [] || t.pending == s.pending)
      && (t.pending != [] ==>
            && t.ticks > 0 && t.clock(t.ticks - 1) - t.lastSend < TIMEOUT * CLOCKS_PER_MS
            && t.outstanding == s.outstanding)
  {}
}
