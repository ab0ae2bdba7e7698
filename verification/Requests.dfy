/** From a request to its answers: what a request registers, under which client and id, and what becomes of it;
    and which value a reply that names no key belongs to. */
module Requests {
  import opened Bytes
  import opened Text
  import opened Wire
  import opened Protocol
  import opened Batching
  import opened Aging
  import opened Chains
  import opened Steering
  import opened Replies
  import opened Runs
  import opened Lifetime
  import opened Copies
  import opened Service

  // ---- What a request registers -----------------------------------------------------------------------

  /** Registration n is of this key, for this client, under its own request id. */
  predicate RegisteredAs(t: State, n: nat, key: Key, ip: nat, reqId: u16)
    requires n < |t.log.regs|
  {
    t.log.regs[n].key == key && t.log.regs[n].node == Node(n, ip, reqId)
  }

  /** From s to t just these keys were registered, in this order. */
  ghost predicate Registers(s: State, t: State, ip: nat, reqId: u16, keys: seq<Key>) {
    && s.log.regs <= t.log.regs && |t.log.regs| == |s.log.regs| + |keys|
    && forall i {:trigger keys[i]} :: 0 <= i < |keys| ==> RegisteredAs(t, |s.log.regs| + i, keys[i], ip, reqId)
  }

  lemma OneMore(s: State, t: State, u: State, ip: nat, reqId: u16, keys: seq<Key>)
    requires keys != [] && Registers(s, t, ip, reqId, keys[..|keys| - 1])
    requires Extends(t, u) && |u.log.regs| == |t.log.regs| + 1
    requires RegisteredAs(u, |t.log.regs|, keys[|keys| - 1], ip, reqId)
    ensures Registers(s, u, ip, reqId, keys)
  {
    var n, front := |keys| - 1, keys[..|keys| - 1];
    forall i | 0 <= i < |keys|
      ensures RegisteredAs(u, |s.log.regs| + i, keys[i], ip, reqId)
    {
      if i < n { assert front[i] == keys[i] && RegisteredAs(t, |s.log.regs| + i, front[i], ip, reqId); }
    }
  }

  lemma {:induction false} KeysRegistered(s: State, ip: nat, reqId: u16, keys: seq<Key>)
    requires Shaped(s)
    ensures Registers(s, TakeKeys(s, ip, reqId, keys), ip, reqId, keys)
  {
    if keys != [] {
      var front := TakeKeys(s, ip, reqId, keys[..|keys| - 1]);
      KeysRegistered(s, ip, reqId, keys[..|keys| - 1]);
      TakeKeyExtends(front, TakeKeys(s, ip, reqId, keys), ip, reqId, keys[|keys| - 1]);
      OneMore(s, front, TakeKeys(s, ip, reqId, keys), ip, reqId, keys);
    }
  }

  lemma IdleKeepsRegs(s: State)
    requires Shaped(s)
    ensures SendIfIdle(s).log.regs == s.log.regs && SendIfIdle(s).table == s.table
    ensures SendIfIdle(s).log.done == s.log.done
  {}

  /** MAIN.  A request that fits registers each of its keys once, in the order it asks for them, for its client and
      under its request id; nothing else registers anything, and what does not fit changes nothing. */
  lemma RequestRegisters(s: State, e: Event)
    requires Shaped(s) && Legal(e)
    ensures var t := Step(s, e);
      && (e.FromClient? && Fits(e.dg) ==> Registers(s, t, e.ip, ReqIdOf(e.dg), RequestKeys(PayloadOf(e.dg))))
      && (!(e.FromClient? && Fits(e.dg)) ==> t.log.regs == s.log.regs)
      && (!e.Timer? && !Fits(e.dg) ==> t == s)
  {
    match e
    case FromClient(ip, dg) =>
      if Fits(dg) {
        var keys := RequestKeys(PayloadOf(dg));
        KeysRegistered(s, ip, ReqIdOf(dg), keys);
        IdleKeepsRegs(TakeKeys(s, ip, ReqIdOf(dg), keys));
      }
    case FromServer(dg) =>
      if Finds(s, dg) { CountedFacts(s, dg); }
    case Timer =>
  }

  /** No registration is ever taken back. */
  lemma {:induction false} RegsStand(clock: nat -> int, es: seq<Event>, m: nat)
    requires AllLegal(es) && m <= |es|
    ensures AllLegal(es[..m]) && Run(clock, es[..m]).log.regs <= Run(clock, es).log.regs
  {
    if m == |es| {
      assert es[..m] == es;
    } else {
      var front := es[..|es| - 1];
      assert front[..m] == es[..m];
      RegsStand(clock, front, m);
      RequestRegisters(Run(clock, front), es[|es| - 1]);
    }
  }

  // ---- Rows no reply has found since ----------------------------------------------------------------------

  /** The reply is looked up in the row of this signature. */
  predicate Consults(s: State, e: Event, sig: Sig)
    requires Shaped(s) && Legal(e)
  {
    e.FromServer? && Fits(e.dg) && Looked(s, e.dg) == sig
  }

  /** The row, if it is there, has counted no datagram. */
  predicate Fresh(s: State, sig: Sig) {
    sig in s.table ==> s.table[sig].count == 1
  }

  /** What a registration leaves of the counts. */
  lemma TakeKeyCounts(s: State, t: State, ip: nat, reqId: u16, key: Key, sig: Sig)
    requires Shaped(s) && t == TakeKey(s, ip, reqId, key)
    ensures Fresh(t, Signature(s.reqId, key))
    ensures Fresh(s, sig) ==> Fresh(t, sig)
    ensures t.log.done == s.log.done
  {}

  lemma {:induction false} TakeKeysCount(s: State, ip: nat, reqId: u16, keys: seq<Key>, sig: Sig)
    requires Shaped(s)
    ensures Fresh(s, sig) ==> Fresh(TakeKeys(s, ip, reqId, keys), sig)
    ensures TakeKeys(s, ip, reqId, keys).log.done == s.log.done
  {
    if keys != [] {
      var front := TakeKeys(s, ip, reqId, keys[..|keys| - 1]);
      TakeKeysCount(s, ip, reqId, keys[..|keys| - 1], sig);
      TakeKeyCounts(front, TakeKeys(s, ip, reqId, keys), ip, reqId, keys[|keys| - 1], sig);
    }
  }

  predicate FreshAt(t: State, n: nat)
    requires n < |t.log.regs|
  {
    Fresh(t, RegSig(t.log.regs[n]))
  }

  /** The rows registered in since s have counted nothing. */
  ghost predicate AllFresh(s: State, t: State) {
    forall n {:trigger FreshAt(t, n)} :: |s.log.regs| <= n < |t.log.regs| ==> FreshAt(t, n)
  }

  lemma FreshStep(s: State, t: State, u: State, ip: nat, reqId: u16, key: Key)
    requires Shaped(t) && t.reqId == Epoch(t) % MAX_REQ_ID && u == TakeKey(t, ip, reqId, key) && AllFresh(s, t)
    ensures AllFresh(s, u)
  {
    TakeKeyExtends(t, u, ip, reqId, key);
    forall n | |s.log.regs| <= n < |u.log.regs| ensures FreshAt(u, n) {
      if n < |t.log.regs| {
        assert FreshAt(t, n);
        assert u.log.regs[n] == t.log.regs[n];
      }
      TakeKeyCounts(t, u, ip, reqId, key, RegSig(u.log.regs[n]));
    }
  }

  lemma IdsInStep(s: State, ip: nat, reqId: u16, keys: seq<Key>)
    requires Sane(s) && ValidKeys(keys)
    ensures var t := TakeKeys(s, ip, reqId, keys);
      t.reqId == Epoch(t) % MAX_REQ_ID && |t.log.regs| == |s.log.regs| + |keys|
  {
    SaneTakeKeys(s, ip, reqId, keys);
    KeysRegistered(s, ip, reqId, keys);
  }

  lemma {:induction false} TakeKeysFresh(s: State, ip: nat, reqId: u16, keys: seq<Key>)
    requires Sane(s) && ValidKeys(keys)
    ensures AllFresh(s, TakeKeys(s, ip, reqId, keys))
  {
    if keys != [] {
      var n := |keys| - 1;
      var front := TakeKeys(s, ip, reqId, keys[..n]);
      TakeKeysFresh(s, ip, reqId, keys[..n]);
      IdsInStep(s, ip, reqId, keys[..n]);
      FreshStep(s, front, TakeKeys(s, ip, reqId, keys), ip, reqId, keys[n]);
    }
  }

  /** Its row has counted nothing, and no reply has completed it since registration n. */
  ghost predicate Unanswered(s: State, n: nat, sig: Sig) {
    Fresh(s, sig) && !Completed(s, n, sig)
  }

  lemma NoneCompleted(s: State, t: State, n: nat, sig: Sig)
    requires t.log.done == s.log.done
    ensures Completed(t, n, sig) <==> Completed(s, n, sig)
  {
    assert forall d: nat :: Completes(t, d, n, sig) <==> Completes(s, d, n, sig);
  }

  lemma ReplyElsewhere(s: State, t: State, dg: seq<byte>, n: nat, sig: Sig)
    requires Shaped(s) && IsDatagram(dg) && ReqIdOf(dg) < MAX_REQ_ID && t == ServerIn(s, dg)
    requires Unanswered(s, n, sig) && (Fits(dg) ==> Looked(s, dg) != sig)
    ensures Unanswered(t, n, sig)
  {
    if Finds(s, dg) {
      CountedFacts(s, dg);
      CountKeepsDone(Fanned(s, dg), dg);
      if s.table[Looked(s, dg)].count >= DatagramCountOf(dg) {
        assert t.log.done == s.log.done + [Done(Looked(s, dg), |s.log.regs|)];
        assert forall d: nat :: Completes(t, d, n, sig) ==> Completes(s, d, n, sig);
      } else {
        NoneCompleted(s, t, n, sig);
      }
    } else {
      NoneCompleted(s, t, n, sig);
    }
  }

  lemma StepUnanswered(s: State, e: Event, n: nat, sig: Sig)
    requires Shaped(s) && Legal(e) && Unanswered(s, n, sig) && !Consults(s, e, sig)
    ensures Unanswered(Step(s, e), n, sig)
  {
    match e
    case FromClient(ip, dg) =>
      if Fits(dg) {
        var keys := RequestKeys(PayloadOf(dg));
        TakeKeysCount(s, ip, ReqIdOf(dg), keys, sig);
        IdleKeepsRegs(TakeKeys(s, ip, ReqIdOf(dg), keys));
      }
      NoneCompleted(s, Step(s, e), n, sig);
    case FromServer(dg) => ReplyElsewhere(s, Step(s, e), dg, n, sig);
    case Timer => NoneCompleted(s, Step(s, e), n, sig);
  }

  /** From event m on no reply was looked up in the row of this signature. */
  ghost predicate NotConsulted(clock: nat -> int, es: seq<Event>, m: nat, sig: Sig)
    requires AllLegal(es)
  {
    forall j {:trigger es[j]} :: m <= j < |es| ==> !Consults(Run(clock, es[..j]), es[j], sig)
  }

  lemma {:induction false} StaysUnanswered(clock: nat -> int, es: seq<Event>, m: nat, n: nat, sig: Sig)
    requires AllLegal(es) && m <= |es| && NotConsulted(clock, es, m, sig)
    requires Unanswered(Run(clock, es[..m]), n, sig)
    ensures Unanswered(Run(clock, es), n, sig)
  {
    if m == |es| {
      assert es[..m] == es;
    } else {
      var front := es[..|es| - 1];
      assert front[..m] == es[..m];
      forall j | m <= j < |front| ensures !Consults(Run(clock, front[..j]), front[j], sig) {
        assert front[..j] == es[..j] && front[j] == es[j];
      }
      StaysUnanswered(clock, front, m, n, sig);
      assert !Consults(Run(clock, es[..|es| - 1]), es[|es| - 1], sig);
      StepUnanswered(Run(clock, front), es[|es| - 1], n, sig);
    }
  }

  /** Just after its request, a registration is unanswered. */
  lemma UnansweredAtFirst(s: State, t: State, ip: nat, dg: seq<byte>, i: nat)
    requires Sane(s) && Lasting(s) && Legal(FromClient(ip, dg)) && Fits(dg) && t == Step(s, FromClient(ip, dg))
    requires i < |RequestKeys(PayloadOf(dg))|
    ensures |s.log.regs| + i < |t.log.regs|
    ensures Unanswered(t, |s.log.regs| + i, RegSig(t.log.regs[|s.log.regs| + i]))
  {
    var keys, n := RequestKeys(PayloadOf(dg)), |s.log.regs| + i;
    var k := TakeKeys(s, ip, ReqIdOf(dg), keys);
    RequestKeysValid(PayloadOf(dg));
    KeysRegistered(s, ip, ReqIdOf(dg), keys);
    TakeKeysFresh(s, ip, ReqIdOf(dg), keys);
    assert FreshAt(k, n);
    TakeKeysCount(s, ip, ReqIdOf(dg), keys, []);
    IdleKeepsRegs(k);
    var sig := RegSig(t.log.regs[n]);
    forall d: nat ensures !Completes(t, d, n, sig) {
      if d < |t.log.done| { assert DoneBy(s, d, |s.log.regs|); }
    }
  }

  // ---- From request to delivery -----------------------------------------------------------------------------

  /** Where the registration of key i of the request in event m stands. */
  function Place(clock: nat -> int, es: seq<Event>, m: nat, i: nat): nat
    requires AllLegal(es) && m <= |es|
  {
    |Run(clock, es[..m]).log.regs| + i
  }

  /** Event m is a request that fits and has a key i. */
  predicate Asks(es: seq<Event>, m: nat, i: nat) {
    && m < |es| && es[m].FromClient? && IsDatagram(es[m].dg) && Fits(es[m].dg)
    && i < |RequestKeys(PayloadOf(es[m].dg))|
  }

  /** Key i of any request of a run is registered, and stays so, for the client and under the id of the request. */
  lemma RequestStands(clock: nat -> int, es: seq<Event>, m: nat, i: nat)
    requires AllLegal(es) && Asks(es, m, i)
    ensures var s, n, e := Run(clock, es), Place(clock, es, m, i), es[m];
      && n < |s.log.regs|
      && RegisteredAs(s, n, RequestKeys(PayloadOf(e.dg))[i], e.ip, ReqIdOf(e.dg))
      && n < |Run(clock, es[..m + 1]).log.regs|
      && Run(clock, es[..m + 1]).log.regs[n] == s.log.regs[n]
  {
    var e := es[m];
    assert es[..m + 1][..m] == es[..m];
    RequestRegisters(Run(clock, es[..m]), e);
    RegsStand(clock, es, m + 1);
    var keys := RequestKeys(PayloadOf(e.dg));
    assert RegisteredAs(Run(clock, es[..m + 1]), Place(clock, es, m, i), keys[i], e.ip, ReqIdOf(e.dg));
  }

  /** The batch of registration n has gone out with its key, no ring slot naming its row has been reused, and the
      server now answers that batch for this key. */
  ghost predicate Answerable(s: State, n: nat, dgs: seq<seq<byte>>)
    requires n < |s.log.regs|
  {
    var r := s.log.regs[n];
    && r.epoch < Epoch(s) && !LeftOver(s, n) && !Reused(s, n, RegSig(r))
    && Value(dgs, r.epoch % MAX_REQ_ID, r.key) && Usable(dgs) && ValidReplies(dgs)
  }

  lemma AnswerReaches(clock: nat -> int, es: seq<Event>, n: nat, dgs: seq<seq<byte>>)
    requires AllLegal(es) && TidyRun(clock, es) && n < |Run(clock, es).log.regs|
    requires Unanswered(Run(clock, es), n, RegSig(Run(clock, es).log.regs[n]))
    requires Answerable(Run(clock, es), n, dgs)
    ensures AllLegal(es + Service.Replies(dgs)) && TidyRun(clock, es + Service.Replies(dgs))
    ensures var s, r := Run(clock, es), Run(clock, es).log.regs[n];
      && r.key in s.log.batches[r.epoch].keys
      && Service.Reached(s, Run(clock, es + Service.Replies(dgs)), dgs, r.node)
  {
    var s := Run(clock, es);
    WaitsUntilEnded(clock, es, n);
    assert AnswersReg(s, dgs, n);
    FromRegistrationToDelivery(clock, es, dgs, n);
  }

  lemma UnansweredNow(clock: nat -> int, es: seq<Event>, m: nat, i: nat)
    requires AllLegal(es) && TidyRun(clock, es) && Asks(es, m, i)
    requires var n := Place(clock, es, m, i);
      n < |Run(clock, es).log.regs| && NotConsulted(clock, es, m + 1, RegSig(Run(clock, es).log.regs[n]))
    ensures Unanswered(Run(clock, es), Place(clock, es, m, i), RegSig(Run(clock, es).log.regs[Place(clock, es, m, i)]))
  {
    var n, e := Place(clock, es, m, i), es[m];
    var before, after := Run(clock, es[..m]), Run(clock, es[..m + 1]);
    RequestStands(clock, es, m, i);
    TidyPrefix(clock, es, m);
    RunKeepsGood(clock, es[..m]);
    TidyRunsLast(clock, es[..m]);
    assert es[..m + 1][..m] == es[..m];
    UnansweredAtFirst(before, after, e.ip, e.dg, i);
    StaysUnanswered(clock, es, m + 1, n, RegSig(Run(clock, es).log.regs[n]));
  }

  lemma {:induction false} TidyPrefix(clock: nat -> int, es: seq<Event>, m: nat)
    requires AllLegal(es) && TidyRun(clock, es) && m <= |es|
    ensures AllLegal(es[..m]) && TidyRun(clock, es[..m])
  {
    if m == |es| {
      assert es[..m] == es;
    } else {
      assert es[..|es| - 1][..m] == es[..m];
      TidyPrefix(clock, es[..|es| - 1], m);
    }
  }

  /** MAIN.  From request to delivery, in any run without stray completions.  Key i of the request of event m is
      registered for the client that asked and under its request id.  As long as no reply has been looked up in its
      row since, when the batch that carries it is answered for the key, and no ring slot naming the row has been
      reused and the key was not left over by an overflow, that client receives every datagram under the id of
      its request. */
  lemma FromRequestToDelivery(clock: nat -> int, es: seq<Event>, m: nat, i: nat, dgs: seq<seq<byte>>)
    requires AllLegal(es) && TidyRun(clock, es) && Asks(es, m, i)
    ensures var s, n, e := Run(clock, es), Place(clock, es, m, i), es[m];
      && n < |s.log.regs|
      && RegisteredAs(s, n, RequestKeys(PayloadOf(e.dg))[i], e.ip, ReqIdOf(e.dg))
      && (NotConsulted(clock, es, m + 1, RegSig(s.log.regs[n])) && Answerable(s, n, dgs) ==>
            && AllLegal(es + Service.Replies(dgs))
            && RequestKeys(PayloadOf(e.dg))[i] in s.log.batches[s.log.regs[n].epoch].keys
            && Service.Reached(s, Run(clock, es + Service.Replies(dgs)), dgs, Node(n, e.ip, ReqIdOf(e.dg))))
  {
    var s, n := Run(clock, es), Place(clock, es, m, i);
    RequestStands(clock, es, m, i);
    if NotConsulted(clock, es, m + 1, RegSig(s.log.regs[n])) && Answerable(s, n, dgs) {
      UnansweredNow(clock, es, m, i);
      AnswerReaches(clock, es, n, dgs);
    }
  }

  // ---- Which value a continuation belongs to ----------------------------------------------------------------

  /** A reply that fits and names a key. */
  predicate Names(e: Event) {
    e.FromServer? && IsDatagram(e.dg) && Fits(e.dg) && KeyOf(e.dg).Some?
  }

  /** The first of several datagrams. */
  predicate Heads(e: Event) {
    Names(e) && DatagramCountOf(e.dg) > 1
  }

  function NamedSig(e: Event): Sig
    requires Names(e)
  {
    Signature(ReqIdOf(e.dg), KeyOf(e.dg).value)
  }

  /** A registration names its row in `key_hold`. */
  lemma TakeKeyRemembers(s: State, ip: nat, reqId: u16, key: Key)
    requires Shaped(s)
    ensures var t := TakeKey(s, ip, reqId, key);
      t.keyHold == Signature(s.reqId, key) && t.lastKey == s.lastKey && t.lastSeq == s.lastSeq
  {}

  lemma {:induction false} TakeKeysRemember(s: State, ip: nat, reqId: u16, keys: seq<Key>)
    requires Sane(s) && ValidKeys(keys)
    ensures var t := TakeKeys(s, ip, reqId, keys);
      && t.lastKey == s.lastKey && t.lastSeq == s.lastSeq
      && (keys != [] ==> t.log.regs != [] && t.keyHold == RegSig(t.log.regs[|t.log.regs| - 1]))
  {
    if keys != [] {
      var n := |keys| - 1;
      var front := TakeKeys(s, ip, reqId, keys[..n]);
      TakeKeysRemember(s, ip, reqId, keys[..n]);
      SaneTakeKeys(s, ip, reqId, keys[..n]);
      TakeKeyRemembers(front, ip, reqId, keys[n]);
      TakeKeyExtends(front, TakeKeys(s, ip, reqId, keys), ip, reqId, keys[n]);
    }
  }

  /** What an event leaves in `last_key`, `last_seq_id` and `key_hold`. */
  ghost predicate Remembers(s: State, t: State, e: Event)
    requires Shaped(s) && Legal(e)
  {
    && t.lastKey == (if Heads(e) then NamedSig(e) else s.lastKey)
    && t.lastSeq == (if e.FromServer? && Finds(s, e.dg) then SequenceOf(e.dg) else s.lastSeq)
    && (if Names(e) then t.keyHold == NamedSig(e)
        else if e.FromClient? && Fits(e.dg) then
          t.log.regs != [] && t.keyHold == RegSig(t.log.regs[|t.log.regs| - 1])
        else t.keyHold == s.keyHold)
  }

  lemma ServerRemembers(s: State, e: Event)
    requires Shaped(s) && Legal(e) && e.FromServer?
    ensures Remembers(s, Step(s, e), e)
  {
    if Finds(s, e.dg) { CountKeepsClients(Fanned(s, e.dg), e.dg); }
  }

  lemma IdleRemembers(s: State)
    requires Shaped(s)
    ensures var t := SendIfIdle(s);
      t.lastKey == s.lastKey && t.lastSeq == s.lastSeq && t.keyHold == s.keyHold && t.log.regs == s.log.regs
  {}

  lemma StepRemembers(s: State, e: Event)
    requires Good(s) && Legal(e)
    ensures Remembers(s, Step(s, e), e)
  {
    match e
    case FromClient(ip, dg) =>
      if Fits(dg) {
        var keys := RequestKeys(PayloadOf(dg));
        RequestKeysValid(PayloadOf(dg));
        TakeKeysRemember(s, ip, ReqIdOf(dg), keys);
        IdleRemembers(TakeKeys(s, ip, ReqIdOf(dg), keys));
      }
    case FromServer(dg) => ServerRemembers(s, e);
    case Timer =>
  }

  lemma RunRemembers(clock: nat -> int, es: seq<Event>)
    requires AllLegal(es) && es != []
    ensures var front := es[..|es| - 1];
      Remembers(Run(clock, front), Run(clock, es), es[|es| - 1])
  {
    RunKeepsGood(clock, es[..|es| - 1]);
    StepRemembers(Run(clock, es[..|es| - 1]), es[|es| - 1]);
  }

  /** Event m is the newest reply that began a value of several datagrams. */
  predicate NewestHead(es: seq<Event>, m: nat) {
    m < |es| && Heads(es[m]) && forall j :: m < j < |es| ==> !Heads(es[j])
  }

  predicate NoHead(es: seq<Event>) {
    forall j :: 0 <= j < |es| ==> !Heads(es[j])
  }

  lemma NewestBefore(es: seq<Event>, m: nat)
    requires es != []
    ensures var n, front := |es| - 1, es[..|es| - 1];
      && (NewestHead(es, m) && m < n ==> !Heads(es[n]) && NewestHead(front, m) && front[m] == es[m])
      && (NoHead(es) ==> !Heads(es[n]) && NoHead(front))
  {
    var front := es[..|es| - 1];
    assert forall j :: 0 <= j < |front| ==> front[j] == es[j];
  }

  lemma {:induction false} LastKeyTold(clock: nat -> int, es: seq<Event>, m: nat)
    requires AllLegal(es)
    ensures NewestHead(es, m) ==> Run(clock, es).lastKey == NamedSig(es[m])
    ensures NoHead(es) ==> Run(clock, es).lastKey == []
  {
    if es != [] {
      NewestBefore(es, m);
      RunRemembers(clock, es);
      LastKeyTold(clock, es[..|es| - 1], m);
    }
  }

  /** MAIN.  Whatever comes between, a reply that names no key is looked up in the row named by the newest reply that
      began a value of several datagrams; before any such reply it finds none. */
  lemma ContinuationFollowsHead(clock: nat -> int, es: seq<Event>, dg: seq<byte>, m: nat)
    requires AllLegal(es) && IsDatagram(dg) && KeyOf(dg) == None
    ensures NewestHead(es, m) ==> Looked(Run(clock, es), dg) == NamedSig(es[m])
    ensures NoHead(es) ==> Looked(Run(clock, es), dg) !in Run(clock, es).table
  {
    LastKeyTold(clock, es, m);
    RunKeepsGood(clock, es);
    if [] in Run(clock, es).table { assert Row(Run(clock, es), []); }
  }

  /** Since event m no request has registered a key and no reply has named one. */
  predicate Undisturbed(es: seq<Event>, m: nat) {
    forall j :: m < j < |es| ==> !Names(es[j]) && !(es[j].FromClient? && Fits(es[j].dg))
  }

  lemma UndisturbedBefore(es: seq<Event>, m: nat)
    requires m < |es| - 1 && Undisturbed(es, m)
    ensures var n, front := |es| - 1, es[..|es| - 1];
      && Undisturbed(front, m) && front[m] == es[m]
      && !Names(es[n]) && !(es[n].FromClient? && Fits(es[n].dg))
  {
    var front := es[..|es| - 1];
    assert forall j :: 0 <= j < |front| ==> front[j] == es[j];
  }

  lemma {:induction false} HoldsSince(clock: nat -> int, es: seq<Event>, m: nat)
    requires AllLegal(es) && m < |es| && Heads(es[m]) && Undisturbed(es, m)
    ensures Run(clock, es).keyHold == Run(clock, es).lastKey == NamedSig(es[m])
  {
    RunRemembers(clock, es);
    if m < |es| - 1 {
      UndisturbedBefore(es, m);
      HoldsSince(clock, es[..|es| - 1], m);
    }
  }

  /** MAIN.  As long as, since the newest reply that began a value, no request has been merged and no other key has
      been named, no continuation is a stray completion. */
  lemma UndisturbedIsNotStray(clock: nat -> int, es: seq<Event>, m: nat, dg: seq<byte>)
    requires AllLegal(es) && m < |es| && Heads(es[m]) && Undisturbed(es, m) && IsDatagram(dg)
    ensures !Stray(Run(clock, es), dg)
  {
    HoldsSince(clock, es, m);
  }
}
