/** The invariants over every run of the middlebox. */
module Runs {
  import opened Bytes
  import opened Text
  import opened Wire
  import opened Protocol
  import opened Batching
  import opened Aging
  import opened Chains
  import opened Steering
  import opened Accounting
  import opened Ledgers

  /** What the state machine keeps in every legal run.  `Chained` is claimed of the code only while packets
      are conserved: after a stray completion its chains lead through freed packets. */
  ghost predicate Good(s: State) {
    Sane(s) && Busy(s)
  }

  /** The part kept by every step inside an event; `Busy` may have to wait until the event is over. */
  ghost predicate Sane(s: State) {
    Batched(s) && Aged(s) && Chained(s) && Booked(s)
  }

  // ---- The start ------------------------------------------------------------------------------------

  lemma InitialIsBatched(clock: nat -> int)
    ensures Batched(Initial(clock))
  {
    var s := Initial(clock);
    assert History(s);
    assert Open(s) == [] && Firsts([]) == [] && TotalSize([]) == 0;
    assert !Overfull(s);
  }

  lemma InitialIsAged(clock: nat -> int)
    ensures Aged(Initial(clock))
  {
    forall j | 0 <= j < MAP_ENTRIES ensures Unused(Initial(clock), j) {}
  }

  lemma InitialIsAccounted(clock: nat -> int)
    ensures Accounted(Initial(clock))
  {
    assert OpenIds(Initial(clock)) == {};
  }

  lemma InitialIsGood(clock: nat -> int)
    ensures Good(Initial(clock)) && Conserved(Initial(clock))
  {
    InitialIsBatched(clock);
    InitialIsAged(clock);
  }

  // ---- Steps -------------------------------------------------------------------------------------------

  /** Nothing these invariants talk about changes, except that rows may go and counters may close. */
  ghost predicate Same(s: State, t: State) {
    Shaped(s) && Shaped(t) && SamePacking(s, t) && SameRing(s, t) && SameRows(s, t) && SameBooks(s, t)
  }

  lemma SaneSame(s: State, t: State)
    requires Sane(s) && Same(s, t)
    ensures Sane(t)
  {
    PackingOnly(s, t);
    RingOnly(s, t);
    RowsOnly(s, t);
    BooksOnly(s, t);
  }

  lemma SendKeepsRows(s: State, full: bool)
    requires Chained(s)
    ensures Chained(SendBatch(s, full))
  {
    var t := SendBatch(s, full);
    RowsOnly(s, t);
  }

  lemma SaneSend(s: State)
    requires Sane(s)
    ensures Sane(SendBatch(s, false))
  {
    SendAll(s);
    SendAllAges(s);
    SendKeepsRows(s, false);
    SendBatchBooks(s, false);
  }

  lemma TakeKeyChains(s: State, ip: nat, reqId: u16, key: Key)
    requires Chained(s)
    ensures Chained(TakeKey(s, ip, reqId, key))
  {
    var i := InsertKey(s, key);
    RowsOnly(s, i);
    RegisterChains(i, ip, reqId, key);
    SendKeepsRows(Register(i, ip, reqId, key), true);
  }

  lemma TakeKeyBooks(s: State, ip: nat, reqId: u16, key: Key)
    requires Booked(s)
    ensures Booked(TakeKey(s, ip, reqId, key))
  {
    var r := Register(InsertKey(s, key), ip, reqId, key);
    BooksOnly(s, r);
    SendBatchBooks(r, true);
  }

  lemma SaneTakeKey(s: State, ip: nat, reqId: u16, key: Key)
    requires Sane(s) && ValidKey(key)
    ensures Sane(TakeKey(s, ip, reqId, key))
  {
    TakeKeyBatched(s, ip, reqId, key);
    TakeKeyAges(s, ip, reqId, key);
    TakeKeyChains(s, ip, reqId, key);
    TakeKeyBooks(s, ip, reqId, key);
  }

  lemma {:induction false} SaneTakeKeys(s: State, ip: nat, reqId: u16, keys: seq<Key>)
    requires Sane(s) && ValidKeys(keys)
    ensures Sane(TakeKeys(s, ip, reqId, keys))
  {
    if keys != [] {
      SaneTakeKeys(s, ip, reqId, keys[..|keys| - 1]);
      SaneTakeKey(TakeKeys(s, ip, reqId, keys[..|keys| - 1]), ip, reqId, keys[|keys| - 1]);
    }
  }

  lemma SaneIdle(s: State)
    requires Sane(s)
    ensures Sane(SendIfIdle(s))
  {
    SaneSend(s);
  }

  lemma SaneClient(s: State, ip: nat, dg: seq<byte>)
    requires Sane(s) && IsDatagram(dg) && (Fits(dg) ==> ValidRequest(PayloadOf(dg)))
    ensures Sane(ClientIn(s, ip, dg))
  {
    if Fits(dg) {
      var keys := RequestKeys(PayloadOf(dg));
      RequestKeysValid(PayloadOf(dg));
      SaneTakeKeys(s, ip, ReqIdOf(dg), keys);
      SaneIdle(TakeKeys(s, ip, ReqIdOf(dg), keys));
    }
  }

  lemma SaneClose(s: State, t: State, id: nat)
    requires Sane(s) && id < MAX_REQ_ID && s.keysRcvd[id] >= 0 && t == Closed(s, id)
    ensures Sane(t)
  {
    PackingOnly(s, t);
    RingOnly(s, t);
    RowsOnly(s, t);
    CloseBooks(s, t, id);
  }

  lemma SaneAnswer(s: State, t: State, id: nat)
    requires Sane(s) && id < MAX_REQ_ID && s.keysRcvd[id] >= 0 && t == Answered(s, id)
    ensures Sane(t)
  {
    SaneSame(s, t);
  }

  lemma SaneCount(s: State, dg: seq<byte>)
    requires Sane(s) && IsDatagram(dg) && ReqIdOf(dg) < MAX_REQ_ID
    ensures Sane(CountReply(s, dg))
  {
    var id := ReqIdOf(dg);
    if Counts(s, dg) {
      if Fulfils(s, dg) {
        SaneClose(s, Closed(s, id), id);
        SaneSend(Closed(s, id));
      } else {
        SaneAnswer(s, Answered(s, id), id);
      }
    }
  }

  lemma SaneTally(s: State, t: State, look: Sig, expected: nat)
    requires Sane(s) && look in s.table && t == Tally(s, look, expected)
    ensures Sane(t)
  {
    SaneSame(s, t);
  }

  lemma SaneFanned(s: State, t: State, dg: seq<byte>)
    requires Sane(s) && IsDatagram(dg) && Looked(s, dg) in s.table && t == Fanned(s, dg)
    ensures Sane(t)
  {
    SaneSame(s, t);
  }

  lemma SaneMarked(s: State, t: State, seqId: nat)
    requires Sane(s) && t == s.(lastSeq := seqId)
    ensures Sane(t)
  {
    SaneSame(s, t);
  }

  lemma SaneCounted(s: State, t: State, dg: seq<byte>)
    requires Sane(s) && IsDatagram(dg) && ReqIdOf(dg) < MAX_REQ_ID && Looked(s, dg) in s.table
    requires t == Counted(s, dg)
    ensures Sane(t)
  {
    var f := Fanned(s, dg);
    SaneFanned(s, f, dg);
    SaneCount(f, dg);
    SaneMarked(CountReply(f, dg), t, SequenceOf(dg));
  }

  lemma SaneNamed(s: State, dg: seq<byte>, t: State)
    requires Sane(s) && IsDatagram(dg) && t == Named(s, dg)
    ensures Sane(t)
  {
    SaneSame(s, t);
  }

  lemma SaneServer(s: State, dg: seq<byte>, t: State)
    requires Sane(s) && IsDatagram(dg) && ReqIdOf(dg) < MAX_REQ_ID && t == ServerIn(s, dg)
    ensures Sane(t)
  {
    if Fits(dg) {
      if Looked(s, dg) in s.table {
        var c := Counted(s, dg);
        SaneCounted(s, c, dg);
        SaneTally(c, t, Looked(s, dg), DatagramCountOf(dg));
      } else {
        SaneNamed(s, dg, t);
      }
    }
  }

  lemma SaneTimeout(s: State, ticked: State, forgiven: State)
    requires Sane(s) && ticked == Ticked(s) && forgiven == Forgiven(ticked)
    ensures Sane(CheckTimeout(s))
  {
    SaneSame(s, ticked);
    SaneSame(ticked, forgiven);
    SaneSend(forgiven);
  }

  lemma SaneRefresh(s: State)
    requires Sane(s)
    ensures Sane(Refresh(s))
  {
    var t := StartClock(s);
    SaneSame(s, t);
    SaneTimeout(t, Ticked(t), Forgiven(Ticked(t)));
  }

  lemma GoodStep(s: State, e: Event)
    requires Good(s) && Legal(e)
    ensures Good(Step(s, e))
  {
    StepKeepsBusy(s, e);
    match e
    case FromClient(ip, dg) => SaneClient(s, ip, dg);
    case FromServer(dg) => SaneServer(s, dg, Step(s, e));
    case Timer => SaneRefresh(s);
  }

  lemma {:induction false} RunKeepsGood(clock: nat -> int, es: seq<Event>)
    requires AllLegal(es)
    ensures Good(Run(clock, es))
  {
    if es == [] {
      InitialIsGood(clock);
    } else {
      RunKeepsGood(clock, es[..|es| - 1]);
      GoodStep(Run(clock, es[..|es| - 1]), es[|es| - 1]);
    }
  }

  // ---- Every run ---------------------------------------------------------------------------------------

  /** MAIN.  In every run, with any interleaving of requests, replies and timer calls: batches are the
      deduplicated windows of the requested keys and fit the wire, the table and its ring stay young and
      bounded, the books are right, and keys wait only while the server is busy; and in a run without stray
      completions chains are exactly the waiting registrations and every packet is in one place. */
  lemma RunIsGood(clock: nat -> int, es: seq<Event>)
    requires AllLegal(es)
    ensures var s := Run(clock, es);
      && Batched(s) && Aged(s) && Booked(s) && Busy(s)
      && (TidyRun(clock, es) ==> Chained(s) && Conserved(s))
  {
    RunKeepsGood(clock, es);
    if TidyRun(clock, es) { TidyRunsConserve(clock, es); }
  }

  /** MAIN.  In every run, every batch was accepted by the UDP layer whole, nothing else went to the server,
      reading what was sent gives back the id and the keys of the batch, and `keys_sent` holds their number
      until the id comes round again. */
  lemma EveryBatchArrives(clock: nat -> int, es: seq<Event>, i: nat)
    requires AllLegal(es) && i < |Run(clock, es).log.batches|
    ensures var s := Run(clock, es);
      && |s.log.toServer| == |s.log.batches|
      && var b, dg := s.log.batches[i], s.log.toServer[i];
      && b.id == i % MAX_REQ_ID
      && DistinctKeys(b.keys) && b.keys != []
      && Fits(dg) && IsDatagram(dg) && ReqIdOf(dg) == b.id
      && RequestKeys(PayloadOf(dg)) == b.keys
      && (Epoch(s) - MAX_REQ_ID <= i ==> s.keysSent[b.id] == |b.keys|)
  {
    var s := Run(clock, es);
    RunKeepsGood(clock, es);
    assert Sent(s, i) && Window(s, i) && Recorded(s, i);
    BatchValid(s, i);
    WireRoundTrip(s.log.batches[i].id, s.log.batches[i].keys);
  }

  lemma BatchValid(s: State, i: nat)
    requires Batched(s) && i < Epoch(s)
    ensures DistinctKeys(s.log.batches[i].keys) && ValidKeys(s.log.batches[i].keys)
  {
    var b := s.log.batches[i];
    assert Window(s, i);
    FirstsMeaning(s.log.regs[Start(s, i)..s.log.cuts[i]]);
    forall j | 0 <= j < |b.keys|
      ensures ValidKey(b.keys[j])
    {
      var k := CarriedWasRegistered(s, i, b.keys[j]);
      assert Enrolled(s, k);
    }
  }

  /** MAIN.  In every run, any row in the table was created at most 1200 batches ago, far fewer than the
      60000 after which its id comes round again. */
  lemma IdsNeverAlias(clock: nat -> int, es: seq<Event>, sig: Sig)
    requires AllLegal(es) && sig in Run(clock, es).table
    ensures var s := Run(clock, es);
      && |s.table| <= MAP_ENTRIES
      && Row(s, sig)
      && 0 <= Age(s, sig) <= 1200 < MAX_REQ_ID
  {
    RunKeepsGood(clock, es);
    TableBounded(Run(clock, es));
    YoungRow(Run(clock, es), sig);
  }

  // ---- Runs in which the server keeps its side ------------------------------------------------------------

  /** Replies only to ids that were sent. */
  ghost predicate HonestRun(clock: nat -> int, es: seq<Event>)
    requires AllLegal(es)
  {
    if es == [] then true
    else
      var front, e := es[..|es| - 1], es[|es| - 1];
      && HonestRun(clock, front)
      && (e.FromServer? ==> Honest(Run(clock, front), e.dg))
  }

  lemma {:induction false} TakeKeysAccounts(s: State, ip: nat, reqId: u16, keys: seq<Key>)
    requires Accounted(s)
    ensures Accounted(TakeKeys(s, ip, reqId, keys))
  {
    if keys != [] {
      TakeKeysAccounts(s, ip, reqId, keys[..|keys| - 1]);
      TakeKeyAccounts(TakeKeys(s, ip, reqId, keys[..|keys| - 1]), ip, reqId, keys[|keys| - 1]);
    }
  }

  lemma AccountedStep(s: State, e: Event)
    requires Accounted(s) && Legal(e) && (e.FromServer? ==> Honest(s, e.dg))
    ensures Accounted(Step(s, e))
  {
    match e
    case FromClient(ip, dg) =>
      if Fits(dg) {
        TakeKeysAccounts(s, ip, ReqIdOf(dg), RequestKeys(PayloadOf(dg)));
        SendAccounts(TakeKeys(s, ip, ReqIdOf(dg), RequestKeys(PayloadOf(dg))), false);
      }
    case FromServer(dg) => ServerAccounts(s, dg);
    case Timer => RefreshAccounts(s);
  }

  lemma {:induction false} HonestRunsKeep(clock: nat -> int, es: seq<Event>)
    requires AllLegal(es) && HonestRun(clock, es)
    ensures Accounted(Run(clock, es))
  {
    if es == [] {
      InitialIsAccounted(clock);
    } else {
      HonestRunsKeep(clock, es[..|es| - 1]);
      AccountedStep(Run(clock, es[..|es| - 1]), es[|es| - 1]);
    }
  }

  /** MAIN.  While the server answers only what it was asked, the count of outstanding requests is that of the
      open ones plus that of batches sent under an id still open since the last timeout, modulo 65536; so it is
      exact if and only if the latter is a multiple of 65536, and never too small while the sum is below. */
  lemma HonestRunsAccount(clock: nat -> int, es: seq<Event>)
    requires AllLegal(es) && HonestRun(clock, es)
    ensures Accounted(Run(clock, es)) && CounterTells(Run(clock, es))
  {
    HonestRunsKeep(clock, es);
    OutstandingMeaning(Run(clock, es));
  }

  /** What a closing closes: the newest batch sent under its id before. */
  function ClosedBatch(s: State, c: nat): int
    requires c < |s.log.closings| && s.log.closings[c].epoch <= Epoch(s)
  {
    Newest(s, s.log.closings[c].id, s.log.closings[c].epoch)
  }

  /** MAIN.  While the server answers only what it was asked, every closing closes a batch that was sent
      before under its id, and no batch is closed twice. */
  lemma EachIssueClosesOnce(clock: nat -> int, es: seq<Event>, c: nat, d: nat)
    requires AllLegal(es) && HonestRun(clock, es) && c < d < |Run(clock, es).log.closings|
    ensures var s := Run(clock, es);
      && s.log.closings[c].epoch <= Epoch(s) && s.log.closings[d].epoch <= Epoch(s)
      && ClosedBatch(s, c) >= 0 && Under(s, ClosedBatch(s, c), s.log.closings[c].id)
      && ClosedBatch(s, d) >= 0 && Under(s, ClosedBatch(s, d), s.log.closings[d].id)
      && ClosedBatch(s, c) != ClosedBatch(s, d)
  {
    var s := Run(clock, es);
    RunKeepsGood(clock, es);
    HonestRunsAccount(clock, es);
    ClosesSomething(s, c);
    ClosesSomething(s, d);
    ClosedOnce(s, c, d);
  }

  lemma ClosesSomething(s: State, c: nat)
    requires Batched(s) && Booked(s) && Accounted(s) && c < |s.log.closings|
    ensures s.log.closings[c].epoch <= Epoch(s) && ClosedBatch(s, c) >= 0
  {
    var x := s.log.closings[c];
    assert Earned(s, c) && ClosedUntilSent(s, c);
    assert Sent(s, x.id);
    CurrentId(x.id);
    assert Under(s, x.id, x.id);
    NewestIsLast(s, x.id, x.epoch, x.id);
  }

  // ---- Runs without stray completions ----------------------------------------------------------------------

  ghost predicate TidyRun(clock: nat -> int, es: seq<Event>)
    requires AllLegal(es)
  {
    if es == [] then true
    else
      var front, e := es[..|es| - 1], es[|es| - 1];
      && TidyRun(clock, front)
      && (e.FromServer? ==> !Stray(Run(clock, front), e.dg))
  }

  lemma SendConserves(s: State, full: bool)
    requires Shaped(s) && Conserved(s)
    ensures Conserved(SendBatch(s, full))
  {
    SamePackets(s, SendBatch(s, full));
  }

  lemma TakeKeyConserves(s: State, ip: nat, reqId: u16, key: Key)
    requires Sane(s) && Conserved(s)
    ensures Conserved(TakeKey(s, ip, reqId, key))
  {
    var i := InsertKey(s, key);
    RowsOnly(s, i);
    SamePackets(s, i);
    RegisterConserves(i, ip, reqId, key);
    SendConserves(Register(i, ip, reqId, key), true);
  }

  lemma {:induction false} TakeKeysConserves(s: State, ip: nat, reqId: u16, keys: seq<Key>)
    requires Sane(s) && Conserved(s) && ValidKeys(keys)
    ensures Conserved(TakeKeys(s, ip, reqId, keys))
  {
    if keys != [] {
      SaneTakeKeys(s, ip, reqId, keys[..|keys| - 1]);
      TakeKeysConserves(s, ip, reqId, keys[..|keys| - 1]);
      TakeKeyConserves(TakeKeys(s, ip, reqId, keys[..|keys| - 1]), ip, reqId, keys[|keys| - 1]);
    }
  }

  lemma TimeoutConserves(s: State)
    requires Shaped(s) && Conserved(s)
    ensures Conserved(CheckTimeout(s))
  {
    SamePackets(s, Ticked(s));
    SamePackets(s, Forgiven(Ticked(s)));
    SendConserves(Forgiven(Ticked(s)), false);
  }

  lemma ConservedStep(s: State, e: Event)
    requires Good(s) && Conserved(s) && Legal(e) && (e.FromServer? ==> !Stray(s, e.dg))
    ensures Conserved(Step(s, e))
  {
    match e
    case FromClient(ip, dg) =>
      if Fits(dg) {
        RequestKeysValid(PayloadOf(dg));
        var t := TakeKeys(s, ip, ReqIdOf(dg), RequestKeys(PayloadOf(dg)));
        TakeKeysConserves(s, ip, ReqIdOf(dg), RequestKeys(PayloadOf(dg)));
        SendConserves(t, false);
      }
    case FromServer(dg) => ServerConserves(s, dg);
    case Timer =>
      SamePackets(s, StartClock(s));
      TimeoutConserves(StartClock(s));
  }

  /** MAIN.  In a run without stray completions every client packet ever registered is either in exactly one
      chain, once, or has been freed exactly once. */
  lemma {:induction false} TidyRunsConserve(clock: nat -> int, es: seq<Event>)
    requires AllLegal(es) && TidyRun(clock, es)
    ensures Good(Run(clock, es)) && Conserved(Run(clock, es))
  {
    RunKeepsGood(clock, es);
    if es == [] {
      InitialIsGood(clock);
    } else {
      var front := es[..|es| - 1];
      TidyRunsConserve(clock, front);
      ConservedStep(Run(clock, front), es[|es| - 1]);
    }
  }
}
