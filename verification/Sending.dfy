/** When a batch leaves and what the clock says then: the three occasions of sending, the timer that acts only
    when it is late, and `last_send_clock`. */
module Sending {
  import opened Bytes
  import opened Text
  import opened Wire
  import opened Protocol
  import opened Batching
  import opened Replies
  import opened Runs

  // ---- The timer ------------------------------------------------------------------------------------

  /** MAIN.  The timer sends a batch if and only if keys are pending and 100 ms have passed since `last_send_clock`
      or since now, if that is not set.  Otherwise it leaves everything but the clock as it was; when late, it
      sends exactly the pending keys, forgets what was outstanding, and closes every other id. */
  lemma TimerSendsIffLate(s: State)
    requires Shaped(s)
    ensures var t := Refresh(s);
      && Epoch(t) == Epoch(s) + (if Late(s) then 1 else 0)
      && (!Late(s) ==> t == s.(lastSend := t.lastSend, ticks := t.ticks))
      && (Late(s) ==>
            && t.log.batches == s.log.batches + [Batch(s.reqId, s.pending)] && t.pending == []
            && t.outstanding == 1 && t.keysSent == s.keysSent[s.reqId := |s.pending|]
            && (forall id :: 0 <= id < MAX_REQ_ID ==> t.keysRcvd[id] == if id == s.reqId then 0 else -1))
  {}

  /** How often the timer calls clock() and what it keeps of it. */
  lemma TimerReads(s: State)
    requires Shaped(s)
    ensures var t, unset := Refresh(s), if s.lastSend == 0 then 1 else 0;
      var since := if s.lastSend == 0 then s.clock(s.ticks) else s.lastSend;
      && t.clock == s.clock
      && (Late(s) <==> s.pending != [] && s.clock(s.ticks + unset) - since >= 100 * 1000)
      && t.ticks == s.ticks + unset + (if s.pending == [] then 0 else if Late(s) then 2 else 1)
      && t.lastSend == if Late(s) then s.clock(t.ticks - 1) else since
  {}

  // ---- Requests and replies ---------------------------------------------------------------------------

  /** One key sends a batch if and only if it is new and the message would be too long with it. */
  lemma KeySendsIffTooLong(s: State, ip: nat, reqId: u16, key: Key)
    requires Batched(s) && ValidKey(key)
    ensures var t := TakeKey(s, ip, reqId, key);
      t.log.batches ==
        if key !in s.pending && |Message(s.pending + [key])| > MAX_PAYLOAD_LEN
        then s.log.batches + [Batch(s.reqId, s.pending)] else s.log.batches
  {
    var r := Register(InsertKey(s, key), ip, reqId, key);
    RegisterPacks(s, ip, reqId, key);
    OpenWindow(s, r, key);
    OverfullMeansTooLong(r);
    if Overfull(r) { OverflowIsNew(s, r, key); }
  }

  /** What the last step of a request or of a reply that closes an id sends. */
  lemma IdleSends(s: State)
    requires Shaped(s)
    ensures var t := SendIfIdle(s);
      if s.pending != [] && s.outstanding < 1000
      then t.log.batches == s.log.batches + [Batch(s.reqId, s.pending)] && t.pending == []
      else t == s
  {}

  /** After its last key a request sends what is pending if and only if fewer than 1000 are outstanding. */
  lemma RequestSends(s: State, k: State, ip: nat, dg: seq<byte>)
    requires Shaped(s) && IsDatagram(dg) && Fits(dg)
    requires k == TakeKeys(s, ip, ReqIdOf(dg), RequestKeys(PayloadOf(dg)))
    ensures var t := ClientIn(s, ip, dg);
      if k.pending != [] && k.outstanding < 1000
      then t.log.batches == k.log.batches + [Batch(k.reqId, k.pending)] && t.pending == []
      else t == k
  {
    IdleSends(k);
  }

  /** The reply finds its row and closes its id. */
  predicate Closes(s: State, dg: seq<byte>)
    requires Shaped(s)
  {
    && Finds(s, dg)
    && s.keysRcvd[ReqIdOf(dg)] >= 0 && SequenceOf(dg) <= s.lastSeq
    && s.keysRcvd[ReqIdOf(dg)] + 1 > s.keysSent[ReqIdOf(dg)] / 2
  }

  lemma CountSends(s: State, dg: seq<byte>)
    requires Shaped(s) && IsDatagram(dg) && ReqIdOf(dg) < MAX_REQ_ID
    ensures var t, left := CountReply(s, dg), (s.outstanding + 65535) % 65536;
      if Counts(s, dg) && Fulfils(s, dg) && s.pending != [] && left < 1000
      then t.log.batches == s.log.batches + [Batch(s.reqId, s.pending)] && t.pending == []
      else t.log.batches == s.log.batches && t.pending == s.pending
  {}

  /** MAIN.  A reply sends what is pending if and only if it closes an id, keys are pending, and fewer than 1000
      requests are left outstanding; a reply that finds no row changes at most what `key_hold` and `last_key`
      name. */
  lemma ReplySends(s: State, dg: seq<byte>)
    requires Shaped(s) && IsDatagram(dg) && ReqIdOf(dg) < MAX_REQ_ID
    ensures var t, left := ServerIn(s, dg), (s.outstanding + 65535) % 65536;
      && (if Closes(s, dg) && s.pending != [] && left < 1000
          then t.log.batches == s.log.batches + [Batch(s.reqId, s.pending)] && t.pending == []
          else t.log.batches == s.log.batches && t.pending == s.pending)
      && (!Finds(s, dg) ==> t == s.(keyHold := t.keyHold, lastKey := t.lastKey))
  {
    if Finds(s, dg) { CountSends(Fanned(s, dg), dg); }
  }

  // ---- Why a batch left -----------------------------------------------------------------------------------

  /** Nothing is taken back, and every batch sent from s to t overflowed. */
  ghost predicate Spilled(s: State, t: State) {
    && |s.log.cuts| == |s.log.batches| && |t.log.cuts| == |t.log.batches|
    && s.log.cuts <= t.log.cuts && s.log.regs <= t.log.regs
    && forall i {:trigger Overflowed(t, i)} :: Epoch(s) <= i < Epoch(t) ==> Overflowed(t, i)
  }

  lemma SpilledOn(s: State, t: State, u: State)
    requires Spilled(s, t) && Spilled(t, u)
    ensures Spilled(s, u)
  {
    forall i | Epoch(s) <= i < Epoch(u) ensures Overflowed(u, i) {
      if i < Epoch(t) { assert Overflowed(t, i); }
    }
  }

  lemma TakeKeySpills(s: State, ip: nat, reqId: u16, key: Key)
    requires Shaped(s) && |s.log.cuts| == |s.log.batches|
    ensures Spilled(s, TakeKey(s, ip, reqId, key))
  {
    var r := Register(InsertKey(s, key), ip, reqId, key);
    assert r.log.regs[|s.log.regs|].epoch == Epoch(s);
  }

  lemma {:induction false} TakeKeysSpill(s: State, ip: nat, reqId: u16, keys: seq<Key>)
    requires Shaped(s) && |s.log.cuts| == |s.log.batches|
    ensures Spilled(s, TakeKeys(s, ip, reqId, keys))
  {
    if keys != [] {
      var front := TakeKeys(s, ip, reqId, keys[..|keys| - 1]);
      TakeKeysSpill(s, ip, reqId, keys[..|keys| - 1]);
      TakeKeySpills(front, ip, reqId, keys[|keys| - 1]);
      SpilledOn(s, front, TakeKeys(s, ip, reqId, keys));
    }
  }

  /** Batch i took all pending keys, and at most 999 requests were outstanding before. */
  predicate SentIdle(t: State, i: nat) {
    i + 1 == Epoch(t) && t.pending == [] && 1 <= t.outstanding <= 1000
  }

  lemma IdleLast(k: State, t: State, i: nat)
    requires Shaped(k) && t == SendIfIdle(k) && Epoch(k) <= i < Epoch(t)
    ensures SentIdle(t, i)
  {}

  lemma OverflowStays(k: State, t: State, i: nat)
    requires Shaped(k) && t == SendIfIdle(k) && i < Epoch(k) && |k.log.cuts| == |k.log.batches| && Overflowed(k, i)
    ensures i < |t.log.cuts| && Overflowed(t, i)
  {}

  lemma CountIdle(s: State, t: State, dg: seq<byte>, i: nat)
    requires Shaped(s) && IsDatagram(dg) && ReqIdOf(dg) < MAX_REQ_ID && t == CountReply(s, dg)
    requires Epoch(s) <= i < Epoch(t)
    ensures SentIdle(t, i)
  {
    IdleLast(Closed(s, ReqIdOf(dg)), t, i);
  }

  lemma TallyKeepsSending(s: State, t: State, look: Sig, expected: nat)
    requires Shaped(s) && look in s.table && t == Tally(s, look, expected)
    ensures t.log.batches == s.log.batches && t.pending == s.pending && t.outstanding == s.outstanding
  {}

  /** MAIN.  A batch leaves for one of three reasons only: the next key did not fit with it; or it took all
      pending keys while fewer than 1000 requests were outstanding; or the timer was late, and then nothing is
      taken to be outstanding. */
  lemma WhySent(s: State, e: Event, i: nat)
    requires Good(s) && Legal(e) && Epoch(s) <= i < Epoch(Step(s, e))
    ensures var t := Step(s, e);
      && |t.log.cuts| == |t.log.batches|
      && (Overflowed(t, i) || SentIdle(t, i))
      && (e.Timer? ==> Late(s) && t.outstanding == 1)
  {
    var t := Step(s, e);
    GoodStep(s, e);
    match e
    case FromClient(ip, dg) =>
      var keys := RequestKeys(PayloadOf(dg));
      var k := TakeKeys(s, ip, ReqIdOf(dg), keys);
      TakeKeysSpill(s, ip, ReqIdOf(dg), keys);
      if i < Epoch(k) { OverflowStays(k, t, i); } else { IdleLast(k, t, i); }
    case FromServer(dg) =>
      var look := Looked(s, dg);
      CountIdle(Fanned(s, dg), CountReply(Fanned(s, dg), dg), dg, i);
      TallyKeepsSending(Counted(s, dg), t, look, DatagramCountOf(dg));
    case Timer => TimerSendsIffLate(s);
  }

  // ---- The clock --------------------------------------------------------------------------------------------

  /** clock() was called once for each batch, and `last_send_clock` is what the last call said. */
  ghost predicate Reads(s: State, t: State) {
    && t.clock == s.clock && Epoch(s) <= Epoch(t) && t.ticks == s.ticks + (Epoch(t) - Epoch(s))
    && t.lastSend == if Epoch(t) > Epoch(s) then t.clock(t.ticks - 1) else s.lastSend
  }

  lemma ReadsOn(s: State, t: State, u: State)
    requires Reads(s, t) && Reads(t, u)
    ensures Reads(s, u)
  {}

  lemma TakeKeyReads(s: State, ip: nat, reqId: u16, key: Key)
    requires Shaped(s)
    ensures Reads(s, TakeKey(s, ip, reqId, key))
  {}

  lemma {:induction false} TakeKeysRead(s: State, ip: nat, reqId: u16, keys: seq<Key>)
    requires Shaped(s)
    ensures Reads(s, TakeKeys(s, ip, reqId, keys))
  {
    if keys != [] {
      var front := TakeKeys(s, ip, reqId, keys[..|keys| - 1]);
      TakeKeysRead(s, ip, reqId, keys[..|keys| - 1]);
      TakeKeyReads(front, ip, reqId, keys[|keys| - 1]);
      ReadsOn(s, front, TakeKey(front, ip, reqId, keys[|keys| - 1]));
    }
  }

  lemma IdleReads(s: State)
    requires Shaped(s)
    ensures Reads(s, SendIfIdle(s))
  {}

  lemma CountReads(s: State, dg: seq<byte>)
    requires Shaped(s) && IsDatagram(dg) && ReqIdOf(dg) < MAX_REQ_ID
    ensures Reads(s, CountReply(s, dg))
  {
    IdleReads(Closed(s, ReqIdOf(dg)));
  }

  lemma ClientReads(s: State, ip: nat, dg: seq<byte>)
    requires Shaped(s) && IsDatagram(dg)
    ensures Reads(s, ClientIn(s, ip, dg))
  {
    if Fits(dg) {
      var k := TakeKeys(s, ip, ReqIdOf(dg), RequestKeys(PayloadOf(dg)));
      TakeKeysRead(s, ip, ReqIdOf(dg), RequestKeys(PayloadOf(dg)));
      IdleReads(k);
      ReadsOn(s, k, SendIfIdle(k));
    }
  }

  lemma SameReads(s: State, t: State, u: State)
    requires Reads(s, t) && u.clock == t.clock && Epoch(u) == Epoch(t) && u.ticks == t.ticks && u.lastSend == t.lastSend
    ensures Reads(s, u)
  {}

  lemma FannedReads(s: State, t: State, dg: seq<byte>)
    requires Shaped(s) && Finds(s, dg) && t == CountReply(Fanned(s, dg), dg)
    ensures Reads(s, t)
  {
    CountReads(Fanned(s, dg), dg);
    SameReads(s, s, Fanned(s, dg));
    ReadsOn(s, Fanned(s, dg), t);
  }

  lemma ServerReads(s: State, dg: seq<byte>)
    requires Shaped(s) && IsDatagram(dg) && ReqIdOf(dg) < MAX_REQ_ID
    ensures Reads(s, ServerIn(s, dg))
  {
    if Finds(s, dg) {
      var counted := CountReply(Fanned(s, dg), dg);
      FannedReads(s, counted, dg);
      SameReads(s, counted, ServerIn(s, dg));
    }
  }

  /** A request or a reply calls clock() once for each batch it sends. */
  lemma StepReads(s: State, e: Event)
    requires Shaped(s) && Legal(e) && !e.Timer?
    ensures Reads(s, Step(s, e))
  {
    match e
    case FromClient(ip, dg) => ClientReads(s, ip, dg);
    case FromServer(dg) => ServerReads(s, dg);
  }

  /** From a to s `last_send_clock` stayed, or was set for want of a value by a later reading. */
  ghost predicate Resumed(a: State, s: State) {
    && s.clock == a.clock && a.ticks <= s.ticks
    && (a.lastSend != 0 ==> s.lastSend == a.lastSend)
    && (a.lastSend == 0 ==> s.lastSend == 0 || exists k :: a.ticks <= k < s.ticks && s.lastSend == s.clock(k))
  }

  lemma ResumedStep(a: State, s: State, e: Event)
    requires Shaped(s) && Legal(e) && Resumed(a, s) && Epoch(Step(s, e)) == Epoch(s)
    ensures Resumed(a, Step(s, e))
  {
    var t := Step(s, e);
    if e.Timer? {
      TimerReads(s);
      TimerSendsIffLate(s);
      if s.lastSend == 0 { assert t.lastSend == t.clock(s.ticks); }
    } else {
      StepReads(s, e);
    }
  }

  lemma EpochGrows(s: State, e: Event)
    requires Shaped(s) && Legal(e)
    ensures Epoch(s) <= Epoch(Step(s, e))
  {
    if e.Timer? { TimerSendsIffLate(s); } else { StepReads(s, e); }
  }

  lemma {:induction false} NothingSentSince(clock: nat -> int, es: seq<Event>, m: nat)
    requires AllLegal(es) && m <= |es|
    ensures AllLegal(es[..m]) && Epoch(Run(clock, es[..m])) <= Epoch(Run(clock, es))
    ensures Epoch(Run(clock, es[..m])) == Epoch(Run(clock, es)) ==> Resumed(Run(clock, es[..m]), Run(clock, es))
  {
    if m == |es| {
      assert es[..m] == es;
    } else {
      var front := es[..|es| - 1];
      assert front[..m] == es[..m];
      NothingSentSince(clock, front, m);
      EpochGrows(Run(clock, front), es[|es| - 1]);
      if Epoch(Run(clock, es[..m])) == Epoch(Run(clock, es)) {
        ResumedStep(Run(clock, es[..m]), Run(clock, front), es[|es| - 1]);
      }
    }
  }

  /** Event m sent the newest batch of the run. */
  predicate SentNewest(clock: nat -> int, es: seq<Event>, m: nat)
    requires AllLegal(es) && m < |es|
  {
    Epoch(Run(clock, es[..m])) < Epoch(Run(clock, es[..m + 1])) == Epoch(Run(clock, es))
  }

  /** If anything was sent, `last_send_clock` is what the last call of clock() said. */
  ghost predicate ReadLast(s: State, t: State) {
    && t.clock == s.clock
    && (Epoch(s) < Epoch(t) ==> s.ticks < t.ticks && t.lastSend == t.clock(t.ticks - 1))
  }

  lemma ReadsLast(s: State, t: State)
    requires Reads(s, t)
    ensures ReadLast(s, t)
  {}

  lemma ReadAtTimer(s: State)
    requires Shaped(s)
    ensures ReadLast(s, Refresh(s))
  {
    TimerReads(s);
    TimerSendsIffLate(s);
  }

  /** The last call of clock() in an event that sends is the one made for its last batch. */
  lemma ReadAtSend(s: State, e: Event)
    requires Shaped(s) && Legal(e)
    ensures ReadLast(s, Step(s, e))
  {
    if e.Timer? {
      ReadAtTimer(s);
    } else {
      StepReads(s, e);
      ReadsLast(s, Step(s, e));
    }
  }

  /** What `last_send_clock` tells in s of the sending that led to b. */
  ghost predicate TellsSend(b: State, s: State)
    requires Shaped(s)
  {
    && b.ticks > 0 && Resumed(b, s)
    && b.lastSend == s.clock(b.ticks - 1)
    && (s.clock(b.ticks - 1) != 0 ==>
          && s.lastSend == s.clock(b.ticks - 1)
          && (Late(s) <==> s.pending != [] && s.clock(s.ticks) - s.clock(b.ticks - 1) >= 100 * 1000))
  }

  lemma SendTold(a: State, b: State, s: State, e: Event)
    requires Shaped(a) && Legal(e) && b == Step(a, e) && Epoch(a) < Epoch(b) && Shaped(s) && Resumed(b, s)
    ensures TellsSend(b, s)
  {
    ReadAtSend(a, e);
    LateSince(s);
  }

  lemma LateSince(s: State)
    requires Shaped(s)
    ensures s.lastSend != 0 ==>
      (Late(s) <==> s.pending != [] && s.clock(s.ticks) - s.lastSend >= 100 * 1000)
  {}

  lemma RunTo(clock: nat -> int, es: seq<Event>, m: nat)
    requires AllLegal(es) && m < |es|
    ensures AllLegal(es[..m]) && AllLegal(es[..m + 1])
    ensures Run(clock, es[..m + 1]) == Step(Run(clock, es[..m]), es[m])
  {
    assert es[..m + 1][..m] == es[..m];
  }

  /** MAIN.  In every run `last_send_clock` is what clock() said when the newest batch was sent, in the last call
      of the event that sent it; so the timer is late if and only if keys are pending and 100 ms have passed since
      then.  (A reading of 0 counts as none: the next timer call takes another.) */
  lemma LastSendTold(clock: nat -> int, es: seq<Event>, m: nat)
    requires AllLegal(es) && m < |es| && SentNewest(clock, es, m)
    ensures TellsSend(Run(clock, es[..m + 1]), Run(clock, es)) && Run(clock, es).clock == clock
  {
    RunTo(clock, es, m);
    NothingSentSince(clock, es, m + 1);
    ClockStays(clock, es);
    SendTold(Run(clock, es[..m]), Run(clock, es[..m + 1]), Run(clock, es), es[m]);
  }

  lemma {:induction false} ClockStays(clock: nat -> int, es: seq<Event>)
    requires AllLegal(es)
    ensures Run(clock, es).clock == clock
  {
    if es != [] {
      var s, e := Run(clock, es[..|es| - 1]), es[|es| - 1];
      ClockStays(clock, es[..|es| - 1]);
      ReadAtSend(s, e);
    }
  }

  /** Before any batch it is unset, or what the first timer call to find it unset was told. */
  lemma BeforeAnySend(clock: nat -> int, es: seq<Event>)
    requires AllLegal(es) && Epoch(Run(clock, es)) == 0
    ensures Resumed(Initial(clock), Run(clock, es))
  {
    NothingSentSince(clock, es, 0);
  }
}
