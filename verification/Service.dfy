/** Who is served by a reply to a batch, and what a value does in the middle of a run. */
module Service {
  import opened Bytes
  import opened Text
  import opened Wire
  import opened Protocol
  import opened Batching
  import opened Aging
  import opened Chains
  import opened Steering
  import opened Runs
  import opened Lifetime

  // ---- Replies reach the registrations of their batch, and only those -----------------------------------

  lemma EpochsGrow(s: State, j: nat, k: nat)
    requires Batched(s) && j < k < |s.log.regs|
    ensures s.log.regs[j].epoch <= s.log.regs[k].epoch
  {
    var a, b := s.log.regs[j].epoch, s.log.regs[k].epoch;
    assert Enrolled(s, j) && Enrolled(s, k);
    if a > b + 1 { CutsGrow(s, b, a - 1); }
  }

  /** Whoever waits in the row that a reply to a recent batch looks up registered while that batch was being
      filled. */
  lemma WaitersAreOfTheBatch(s: State, i: nat, key: Key, j: nat)
    requires Sane(s) && Epoch(s) - MAX_REQ_ID < i < Epoch(s) && j < |s.log.regs|
    requires var sig := Signature(i % MAX_REQ_ID, key);
      sig in s.table && Chain(s, sig) && Awaits(s.log.regs, Since(s, sig), sig, s.log.regs[j].node)
    ensures s.log.regs[j].epoch == i && s.log.regs[j].key == key
  {
    var sig, r := Signature(i % MAX_REQ_ID, key), s.log.regs[j];
    assert Numbered(s, j) && Enrolled(s, j) && Chain(s, sig);
    SignatureInjective(r.epoch % MAX_REQ_ID, r.key, i % MAX_REQ_ID, key);
    YoungRow(s, sig);
    if Since(s, sig) < j { EpochsGrow(s, Since(s, sig), j); }
    SameId(r.epoch, i);
  }

  /** MAIN.  The row that a reply to batch i with this key looks up holds exactly the registrations of the key
      made for batch i since the row's creation, and none of them was left over by an overflow. */
  lemma RowOfBatch(s: State, i: nat, key: Key, j: nat)
    requires Sane(s) && Epoch(s) - MAX_REQ_ID < i < Epoch(s) && j < |s.log.regs|
    requires Signature(i % MAX_REQ_ID, key) in s.table
    ensures var r, sig := s.log.regs[j], Signature(i % MAX_REQ_ID, key);
      && Chain(s, sig)
      && (r.node in s.table[sig].chain <==> r.epoch == i && r.key == key && Since(s, sig) <= j)
      && (r.node in s.table[sig].chain && key in s.log.batches[i].keys ==> !LeftOver(s, j))
  {
    var r, sig := s.log.regs[j], Signature(i % MAX_REQ_ID, key);
    ChainMeaning(s, sig);
    assert Numbered(s, j);
    assert r.node in s.table[sig].chain <==> Awaits(s.log.regs, Since(s, sig), sig, r.node);
    if r.node in s.table[sig].chain {
      WaitersAreOfTheBatch(s, i, key, j);
      CarriedByItsBatch(s, j);
    }
  }

  /** MAIN.  In every run without stray completions, a registration left over by an overflow is in no chain
      that a reply to a batch carrying its key looks up, as long as the id of that batch has not come round
      again: nobody serves it. */
  lemma LeftOverIsNotServed(clock: nat -> int, es: seq<Event>, i: nat, j: nat)
    requires AllLegal(es) && TidyRun(clock, es)
    requires var s := Run(clock, es);
      && Epoch(s) - MAX_REQ_ID < i < Epoch(s) && j < |s.log.regs| && LeftOver(s, j)
      && s.log.regs[j].key in s.log.batches[i].keys
    ensures var s, sig := Run(clock, es), Signature(i % MAX_REQ_ID, Run(clock, es).log.regs[j].key);
      sig in s.table ==> s.log.regs[j].node !in s.table[sig].chain
  {
    var s := Run(clock, es);
    RunKeepsGood(clock, es);
    var key := s.log.regs[j].key;
    if Signature(i % MAX_REQ_ID, key) in s.table { RowOfBatch(s, i, key, j); }
  }

  // ---- A value in the middle of a run ----------------------------------------------------------------------

  function Replies(dgs: seq<seq<byte>>): (es: seq<Event>)
    ensures |es| == |dgs|
    ensures forall i :: 0 <= i < |dgs| ==> es[i] == FromServer(dgs[i])
  {
    seq(|dgs|, i requires 0 <= i < |dgs| => FromServer(dgs[i]))
  }

  predicate ValidReplies(dgs: seq<seq<byte>>) {
    forall i :: 0 <= i < |dgs| ==> ValidReply(dgs[i])
  }

  /** One more event. */
  lemma RunOn(clock: nat -> int, es: seq<Event>, e: Event)
    requires AllLegal(es) && Legal(e)
    ensures AllLegal(es + [e]) && Run(clock, es + [e]) == Step(Run(clock, es), e)
    ensures TidyRun(clock, es) && (e.FromServer? ==> !Stray(Run(clock, es), e.dg)) ==> TidyRun(clock, es + [e])
  {
    assert (es + [e])[..|es|] == es;
  }

  lemma LastReply(es: seq<Event>, dgs: seq<seq<byte>>)
    requires dgs != []
    ensures es + Replies(dgs) == es + Replies(dgs[..|dgs| - 1]) + [FromServer(dgs[|dgs| - 1])]
  {
    assert Replies(dgs) == Replies(dgs[..|dgs| - 1]) + [FromServer(dgs[|dgs| - 1])];
  }

  /** A run goes on with some replies. */
  lemma {:induction false} RunOfReplies(clock: nat -> int, es: seq<Event>, dgs: seq<seq<byte>>)
    requires AllLegal(es) && Usable(dgs) && ValidReplies(dgs)
    ensures AllLegal(es + Replies(dgs)) && Run(clock, es + Replies(dgs)) == Deliver(Run(clock, es), dgs)
  {
    if dgs == [] {
      assert es + Replies(dgs) == es;
    } else {
      var front := dgs[..|dgs| - 1];
      assert Usable(front) && ValidReplies(front);
      RunOfReplies(clock, es, front);
      LastReply(es, dgs);
      RunOn(clock, es + Replies(front), FromServer(dgs[|dgs| - 1]));
    }
  }

  /** In the middle of a value `key_hold` and `last_key` agree. */
  lemma PartIsNotStray(s: State, t: State, dgs: seq<seq<byte>>, m: nat, id: nat, key: Key)
    requires Shaped(t) && Value(dgs, id, key) && Usable(dgs) && m < |dgs|
    requires Signature(id, key) in s.table && Progress(s, t, dgs, m, Signature(id, key))
    ensures !Stray(t, dgs[m])
  {
    assert Part(dgs, m, id, key);
  }

  /** The row is there and none of its datagrams has come. */
  predicate Ready(s: State, id: nat, key: Key) {
    Signature(id, key) in s.table && s.table[Signature(id, key)].count == 1
  }

  /** Nothing about a value is stray. */
  lemma {:induction false} ValueIsTidy(clock: nat -> int, es: seq<Event>, dgs: seq<seq<byte>>, m: nat,
                                       id: nat, key: Key)
    requires AllLegal(es) && TidyRun(clock, es) && m <= |dgs|
    requires Value(dgs, id, key) && Usable(dgs) && ValidReplies(dgs) && Ready(Run(clock, es), id, key)
    ensures AllLegal(es + Replies(dgs[..m])) && TidyRun(clock, es + Replies(dgs[..m]))
  {
    if m == 0 {
      assert es + Replies(dgs[..m]) == es;
    } else {
      var front := dgs[..m - 1];
      assert Usable(front) && ValidReplies(front) && dgs[..m][..m - 1] == front;
      ValueIsTidy(clock, es, dgs, m - 1, id, key);
      RunOfReplies(clock, es, front);
      ValueIsSteered(Run(clock, es), dgs, m - 1, id, key);
      PartIsNotStray(Run(clock, es), Deliver(Run(clock, es), front), dgs, m - 1, id, key);
      LastReply(es, dgs[..m]);
      RunOn(clock, es + Replies(front), FromServer(dgs[m - 1]));
    }
  }

  /** The row is gone, and delivery j * w + i of the w * |dgs| new ones is datagram j for the i-th waiting
      registration. */
  ghost predicate Served(s: State, t: State, dgs: seq<seq<byte>>, sig: Sig, j: nat, i: nat)
    requires Usable(dgs) && j < |dgs|
  {
    && sig in s.table && Chain(s, sig) && t.table == s.table - {sig}
    && var clients, first := Waiting(s.log.regs, Since(s, sig), sig), |s.log.toClients|;
    && |t.log.toClients| == first + |dgs| * |clients|
    && i < |clients| && 0 <= j * |clients| + i < |dgs| * |clients|
    && var got := t.log.toClients[first + (j * |clients| + i)];
    && got == Delivery(clients[i].ip, Readdressed(dgs[j], clients[i].reqId))
  }

  lemma ValueServes(s: State, t: State, dgs: seq<seq<byte>>, id: nat, key: Key, j: nat, i: nat)
    requires Chained(s) && Value(dgs, id, key) && Usable(dgs) && t == Deliver(s, dgs) && Ready(s, id, key)
    requires j < |dgs| && i < |s.table[Signature(id, key)].chain|
    ensures Served(s, t, dgs, Signature(id, key), j, i)
  {
    ChainMeaning(s, Signature(id, key));
    EveryClientIsServed(s, dgs, id, key, j, i);
  }

  /** MAIN.  End to end, in any run without stray completions: a value answered under the id and key of a row
      not yet counted adds to what went out to clients, datagram by datagram, one delivery for each
      registration waiting in the row, newest first, under that registration's own request id and with every
      other byte as the server sent it; the row is gone afterwards, and the run is still without stray
      completions. */
  lemma ValueInRunIsServed(clock: nat -> int, es: seq<Event>, dgs: seq<seq<byte>>,
                           id: nat, key: Key, j: nat, i: nat)
    requires AllLegal(es) && TidyRun(clock, es) && Ready(Run(clock, es), id, key)
    requires Value(dgs, id, key) && Usable(dgs) && ValidReplies(dgs)
    requires j < |dgs| && i < |Run(clock, es).table[Signature(id, key)].chain|
    ensures AllLegal(es + Replies(dgs)) && TidyRun(clock, es + Replies(dgs))
    ensures Served(Run(clock, es), Run(clock, es + Replies(dgs)), dgs, Signature(id, key), j, i)
  {
    var s := Run(clock, es);
    RunKeepsGood(clock, es);
    RunOfReplies(clock, es, dgs);
    ValueIsTidy(clock, es, dgs, |dgs|, id, key);
    assert dgs[..|dgs|] == dgs;
    ValueServes(s, Deliver(s, dgs), dgs, id, key, j, i);
  }

  // ---- From registration to delivery ------------------------------------------------------------------------

  /** Each datagram of the value reached this client under its own request id, after what had gone out in s. */
  ghost predicate Reached(s: State, t: State, dgs: seq<seq<byte>>, x: Node)
    requires Usable(dgs)
  {
    forall j :: 0 <= j < |dgs| ==> Delivered(s, t, dgs[j], x)
  }

  ghost predicate Delivered(s: State, t: State, dg: seq<byte>, x: Node)
    requires IsDatagram(dg)
  {
    exists m: nat {:trigger t.log.toClients[m]} ::
      && |s.log.toClients| <= m < |t.log.toClients|
      && t.log.toClients[m] == Delivery(x.ip, Readdressed(dg, x.reqId))
  }

  /** A reply to the batch of a registration's epoch that names its key. */
  ghost predicate AnswersReg(s: State, dgs: seq<seq<byte>>, n: nat)
    requires n < |s.log.regs|
  {
    var r := s.log.regs[n];
    && Value(dgs, r.epoch % MAX_REQ_ID, r.key) && Usable(dgs) && ValidReplies(dgs)
    && Ready(s, r.epoch % MAX_REQ_ID, r.key)
  }

  lemma ServedIsDelivered(s: State, t: State, dgs: seq<seq<byte>>, sig: Sig, j: nat, i: nat)
    requires Usable(dgs) && j < |dgs| && Served(s, t, dgs, sig, j, i) && i < |s.table[sig].chain|
    ensures Delivered(s, t, dgs[j], s.table[sig].chain[i])
  {
    var w := |s.table[sig].chain|;
    assert t.log.toClients[|s.log.toClients| + (j * w + i)].ip == s.table[sig].chain[i].ip;
  }

  lemma WaitingIsReached(clock: nat -> int, es: seq<Event>, s: State, t: State, dgs: seq<seq<byte>>, n: nat, i: nat)
    requires AllLegal(es) && TidyRun(clock, es) && s == Run(clock, es) && n < |s.log.regs| && AnswersReg(s, dgs, n)
    requires i < |s.table[RegSig(s.log.regs[n])].chain| && s.table[RegSig(s.log.regs[n])].chain[i] == s.log.regs[n].node
    requires AllLegal(es + Replies(dgs)) && t == Run(clock, es + Replies(dgs))
    ensures Reached(s, t, dgs, s.log.regs[n].node)
  {
    var r := s.log.regs[n];
    forall j | 0 <= j < |dgs|
      ensures Delivered(s, t, dgs[j], r.node)
    {
      ValueInRunIsServed(clock, es, dgs, r.epoch % MAX_REQ_ID, r.key, j, i);
      ServedIsDelivered(s, t, dgs, RegSig(r), j, i);
    }
  }

  /** MAIN.  From registration to delivery, in any run without stray completions.  A registration whose batch has
      gone out and which was not left over: its key is in the batch of its epoch; and when that batch is answered
      for the key, it receives every datagram if, since it registered, its ring slot was not reused and its row not
      completed.  Otherwise its packet has been freed and it is in no row the reply can find. */
  lemma FromRegistrationToDelivery(clock: nat -> int, es: seq<Event>, dgs: seq<seq<byte>>, n: nat)
    requires AllLegal(es) && TidyRun(clock, es) && n < |Run(clock, es).log.regs|
    requires Run(clock, es).log.regs[n].epoch < Epoch(Run(clock, es)) && !LeftOver(Run(clock, es), n)
    requires AnswersReg(Run(clock, es), dgs, n)
    ensures AllLegal(es + Replies(dgs)) && TidyRun(clock, es + Replies(dgs))
    ensures var s, t, r := Run(clock, es), Run(clock, es + Replies(dgs)), Run(clock, es).log.regs[n];
      && r.key in s.log.batches[r.epoch].keys
      && (if Reused(s, n, RegSig(r)) || Completed(s, n, RegSig(r)) then
            r.node in s.log.freed && r.node !in s.table[RegSig(r)].chain
          else Reached(s, t, dgs, r.node))
  {
    var s := Run(clock, es);
    var r, sig := s.log.regs[n], RegSig(s.log.regs[n]);
    RunKeepsGood(clock, es);
    CarriedByItsBatch(s, n);
    WaitsUntilEnded(clock, es, n);
    RunOfReplies(clock, es, dgs);
    ValueIsTidy(clock, es, dgs, |dgs|, r.epoch % MAX_REQ_ID, r.key);
    assert dgs[..|dgs|] == dgs;
    if !Reused(s, n, sig) && !Completed(s, n, sig) {
      var i: nat :| i < |s.table[sig].chain| && s.table[sig].chain[i] == r.node;
      WaitingIsReached(clock, es, s, Run(clock, es + Replies(dgs)), dgs, n, i);
    }
  }
}
