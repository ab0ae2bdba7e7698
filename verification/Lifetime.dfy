/** How long a registration waits: in a run without stray completions it leaves its row exactly when its ring
    slot is reused or a reply completes the row. */
module Lifetime {
  import opened Bytes
  import opened Text
  import opened Wire
  import opened Protocol
  import opened Aging
  import opened Chains
  import opened Steering
  import opened Runs

  // ---- What ends a registration ---------------------------------------------------------------------

  /** After registration n, creation c took over the ring slot of the creation 600 before it, which named this
      signature. */
  ghost predicate Reuses(s: State, c: nat, n: nat, sig: Sig) {
    && MAP_ENTRIES <= c < Created(s)
    && s.log.made[c].since > n
    && SigOf(s.log.made[c - MAP_ENTRIES]) == sig
  }

  ghost predicate Reused(s: State, n: nat, sig: Sig) {
    exists c: nat :: Reuses(s, c, n, sig)
  }

  /** After registration n, a reply completed the row of this signature. */
  ghost predicate Completes(s: State, d: nat, n: nat, sig: Sig) {
    d < |s.log.done| && s.log.done[d] == Done(sig, s.log.done[d].since) && s.log.done[d].since > n
  }

  ghost predicate Completed(s: State, n: nat, sig: Sig) {
    exists d: nat :: Completes(s, d, n, sig)
  }

  /** Registration n is still in its row exactly when neither has happened. */
  ghost predicate Lasts(s: State, n: nat)
    requires n < |s.log.regs|
  {
    Owned(s, n) <==> !Reused(s, n, RegSig(s.log.regs[n])) && !Completed(s, n, RegSig(s.log.regs[n]))
  }

  predicate MadeBy(s: State, c: nat)
    requires c < Created(s)
  {
    s.log.made[c].since < |s.log.regs|
  }

  predicate DoneBy(s: State, d: nat, n: nat)
    requires d < |s.log.done|
  {
    s.log.done[d].since <= n
  }

  ghost predicate Lasting(s: State) {
    && (forall n :: 0 <= n < |s.log.regs| ==> Lasts(s, n))
    && (forall c :: 0 <= c < Created(s) ==> MadeBy(s, c))
    && (forall d :: 0 <= d < |s.log.done| ==> DoneBy(s, d, |s.log.regs|))
  }

  // ---- Steps ----------------------------------------------------------------------------------------------

  ghost predicate SameLives(s: State, t: State) {
    && t.table.Keys == s.table.Keys && t.log.regs == s.log.regs
    && t.log.made == s.log.made && t.log.born == s.log.born && t.log.done == s.log.done
  }

  lemma LivesOnly(s: State, t: State)
    requires Lasting(s) && SameLives(s, t)
    ensures Lasting(t)
  {
    forall n | 0 <= n < |t.log.regs| ensures Lasts(t, n) {
      assert Lasts(s, n);
      EndsKept(s, t, n, RegSig(s.log.regs[n]));
    }
    forall c | 0 <= c < Created(t) ensures MadeBy(t, c) { assert MadeBy(s, c); }
    forall d | 0 <= d < |t.log.done| ensures DoneBy(t, d, |s.log.regs|) && DoneBy(t, d, |t.log.regs|) {
      assert DoneBy(s, d, |s.log.regs|);
    }
  }

  /** With no new creation or completion, nothing more has ended. */
  lemma EndsKept(s: State, t: State, n: nat, sig: Sig)
    requires t.log.made == s.log.made && t.log.done == s.log.done
    ensures Reused(t, n, sig) <==> Reused(s, n, sig)
    ensures Completed(t, n, sig) <==> Completed(s, n, sig)
  {
    assert forall c: nat :: Reuses(t, c, n, sig) <==> Reuses(s, c, n, sig);
    assert forall d: nat :: Completes(t, d, n, sig) <==> Completes(s, d, n, sig);
  }

  /** A registration just made has not ended. */
  lemma NotEnded(t: State, n: nat, sig: Sig)
    requires |t.log.regs| == n + 1
    requires forall c :: 0 <= c < Created(t) ==> MadeBy(t, c)
    requires forall d :: 0 <= d < |t.log.done| ==> DoneBy(t, d, n)
    ensures !Reused(t, n, sig) && !Completed(t, n, sig)
  {
    forall c: nat ensures !Reuses(t, c, n, sig) { if c < Created(t) { assert MadeBy(t, c); } }
    forall d: nat ensures !Completes(t, d, n, sig) { if d < |t.log.done| { assert DoneBy(t, d, n); } }
  }

  /** A new creation ends the registrations its ring slot named, and no others. */
  lemma CreationEnds(s: State, t: State, n: nat, sig: Sig)
    requires Ringed(s) && sig != [] && n < |s.log.regs| && t.log.done == s.log.done
    requires |t.log.made| == |s.log.made| + 1 && t.log.made[..|s.log.made|] == s.log.made
    requires t.log.made[|s.log.made|].since == |s.log.regs|
    ensures Reused(t, n, sig) <==> Reused(s, n, sig) || s.ring[s.ringPtr] == sig
    ensures Completed(t, n, sig) <==> Completed(s, n, sig)
  {
    var new' := |s.log.made|;
    VictimIsOldest(s);
    assert forall c :: 0 <= c < new' ==> t.log.made[c] == t.log.made[..new'][c] == s.log.made[c];
    forall c: nat
      ensures Reuses(t, c, n, sig) <==> Reuses(s, c, n, sig) || (c == new' && s.ring[s.ringPtr] == sig)
    {}
    if s.ring[s.ringPtr] == sig { assert Reuses(t, new', n, sig); }
    if Reused(s, n, sig) {
      var c: nat :| Reuses(s, c, n, sig);
      assert Reuses(t, c, n, sig);
    }
    assert forall d: nat :: Completes(t, d, n, sig) <==> Completes(s, d, n, sig);
  }

  /** Joining a row. */
  lemma JoinLasts(s: State, t: State, r: Reg)
    requires Chained(s) && Lasting(s) && RegSig(r) in s.table
    requires SameLives(s, t.(log := t.log.(regs := s.log.regs))) && t.log.regs == s.log.regs + [r]
    ensures Lasting(t)
  {
    forall c | 0 <= c < Created(t) ensures MadeBy(t, c) { assert MadeBy(s, c); }
    forall d | 0 <= d < |t.log.done| ensures DoneBy(t, d, |s.log.regs|) && DoneBy(t, d, |t.log.regs|) {
      assert DoneBy(s, d, |s.log.regs|);
    }
    forall n | 0 <= n < |t.log.regs| ensures Lasts(t, n) {
      if n < |s.log.regs| {
        assert Lasts(s, n);
        EndsKept(s, t, n, RegSig(s.log.regs[n]));
      } else {
        assert Chain(s, RegSig(r));
        NotEnded(t, n, RegSig(r));
      }
    }
  }

  /** What starting a row does, as far as lifetimes go. */
  ghost predicate Starts(s: State, t: State, r: Reg) {
    && Shaped(s) && RegSig(r) !in s.table && RegSig(r) != []
    && t.table.Keys == s.table.Keys - {s.ring[s.ringPtr]} + {RegSig(r)}
    && t.log.regs == s.log.regs + [r] && t.log.done == s.log.done
    && t.log.made == s.log.made + [Made(r.epoch, r.key, |s.log.regs|)]
    && t.log.born == s.log.born[RegSig(r) := |s.log.made|]
  }

  lemma OldLasts(s: State, t: State, r: Reg, n: nat)
    requires Ringed(s) && Chained(s) && Lasting(s) && Starts(s, t, r) && n < |s.log.regs|
    ensures Lasts(t, n)
  {
    var sig := RegSig(s.log.regs[n]);
    assert Lasts(s, n);
    CreationEnds(s, t, n, sig);
    if sig != RegSig(r) && sig in s.table { assert Chain(s, sig); }
  }

  lemma StartLasts(s: State, t: State, r: Reg)
    requires Ringed(s) && Chained(s) && Lasting(s) && Starts(s, t, r)
    ensures Lasting(t)
  {
    forall c | 0 <= c < Created(t) ensures MadeBy(t, c) { if c < Created(s) { assert MadeBy(s, c); } }
    forall d | 0 <= d < |t.log.done| ensures DoneBy(t, d, |s.log.regs|) && DoneBy(t, d, |t.log.regs|) {
      assert DoneBy(s, d, |s.log.regs|);
    }
    forall n | 0 <= n < |t.log.regs| ensures Lasts(t, n) {
      if n < |s.log.regs| {
        OldLasts(s, t, r, n);
      } else {
        NotEnded(t, n, RegSig(r));
      }
    }
  }

  lemma RegisterLasts(s: State, t: State, ip: nat, reqId: u16, key: Key)
    requires Ringed(s) && Chained(s) && Lasting(s) && t == Register(s, ip, reqId, key)
    ensures Lasting(t)
  {
    var r := Reg(Epoch(s), key, Node(|s.log.regs|, ip, reqId));
    assert RegSig(r) == Signature(s.reqId, key);
    if RegSig(r) in s.table {
      assert t.table.Keys == s.table.Keys;
      JoinLasts(s, t, r);
    } else {
      StartLasts(s, t, r);
    }
  }

  /** A reply completes the row it was looked up in. */
  lemma ClearLasts(s: State, t: State, look: Sig)
    requires Chained(s) && Lasting(s) && look in s.table
    requires t.table.Keys == s.table.Keys - {look} && t.log.regs == s.log.regs
    requires t.log.made == s.log.made && t.log.born == s.log.born
    requires t.log.done == s.log.done + [Done(look, |s.log.regs|)]
    ensures Lasting(t)
  {
    forall c | 0 <= c < Created(t) ensures MadeBy(t, c) { assert MadeBy(s, c); }
    forall d | 0 <= d < |t.log.done| ensures DoneBy(t, d, |t.log.regs|) {
      if d < |s.log.done| { assert DoneBy(s, d, |s.log.regs|); }
    }
    forall n | 0 <= n < |t.log.regs| ensures Lasts(t, n) {
      assert Lasts(s, n);
      CompletionEnds(s, t, n, RegSig(s.log.regs[n]), look);
    }
  }

  lemma CompletionEnds(s: State, t: State, n: nat, sig: Sig, look: Sig)
    requires n < |s.log.regs| && t.log.made == s.log.made
    requires t.log.done == s.log.done + [Done(look, |s.log.regs|)]
    ensures Reused(t, n, sig) <==> Reused(s, n, sig)
    ensures Completed(t, n, sig) <==> Completed(s, n, sig) || sig == look
  {
    assert forall c: nat :: Reuses(t, c, n, sig) <==> Reuses(s, c, n, sig);
    forall d: nat
      ensures Completes(t, d, n, sig) <==> Completes(s, d, n, sig) || (d == |s.log.done| && sig == look)
    {}
    if sig == look { assert Completes(t, |s.log.done|, n, sig); }
    if Completed(s, n, sig) {
      var d: nat :| Completes(s, d, n, sig);
      assert Completes(t, d, n, sig);
    }
  }

  // ---- Events and runs --------------------------------------------------------------------------------

  lemma InsertLasts(s: State, i: State, key: Key)
    requires Ringed(s) && Chained(s) && Lasting(s) && i == InsertKey(s, key)
    ensures Ringed(i) && Chained(i) && Lasting(i)
  {
    LivesOnly(s, i);
    RingOnly(s, i);
    RowsOnly(s, i);
  }

  lemma SendLasts(s: State, t: State, full: bool)
    requires Shaped(s) && Lasting(s) && t == SendBatch(s, full)
    ensures Lasting(t)
  {
    LivesOnly(s, t);
  }

  lemma TakeKeyLasts(s: State, i: State, r: State, ip: nat, reqId: u16, key: Key)
    requires Ringed(s) && Chained(s) && Lasting(s) && i == InsertKey(s, key) && r == Register(i, ip, reqId, key)
    ensures Lasting(if Overfull(r) then SendBatch(r, true) else r)
  {
    InsertLasts(s, i, key);
    RegisterLasts(i, r, ip, reqId, key);
    SendLasts(r, SendBatch(r, true), true);
  }

  lemma {:induction false} TakeKeysLast(s: State, ip: nat, reqId: u16, keys: seq<Key>)
    requires Sane(s) && Lasting(s) && ValidKeys(keys)
    ensures Lasting(TakeKeys(s, ip, reqId, keys))
  {
    if keys != [] {
      var t, key := TakeKeys(s, ip, reqId, keys[..|keys| - 1]), keys[|keys| - 1];
      SaneTakeKeys(s, ip, reqId, keys[..|keys| - 1]);
      TakeKeysLast(s, ip, reqId, keys[..|keys| - 1]);
      TakeKeyLasts(t, InsertKey(t, key), Register(InsertKey(t, key), ip, reqId, key), ip, reqId, key);
    }
  }

  lemma IdleLasts(s: State)
    requires Shaped(s) && Lasting(s)
    ensures Lasting(SendIfIdle(s))
  {
    LivesOnly(s, SendIfIdle(s));
  }

  lemma ClientLasts(s: State, ip: nat, dg: seq<byte>)
    requires Sane(s) && Lasting(s) && IsDatagram(dg) && (Fits(dg) ==> ValidRequest(PayloadOf(dg)))
    ensures Lasting(ClientIn(s, ip, dg))
  {
    if Fits(dg) {
      var keys := RequestKeys(PayloadOf(dg));
      RequestKeysValid(PayloadOf(dg));
      TakeKeysLast(s, ip, ReqIdOf(dg), keys);
      IdleLasts(TakeKeys(s, ip, ReqIdOf(dg), keys));
    }
  }

  lemma CountKeepsDone(s: State, dg: seq<byte>)
    requires Shaped(s) && IsDatagram(dg) && ReqIdOf(dg) < MAX_REQ_ID
    ensures CountReply(s, dg).log.done == s.log.done
  {}

  lemma ServerLasts(s: State, t: State, dg: seq<byte>)
    requires Chained(s) && Lasting(s) && IsDatagram(dg) && ReqIdOf(dg) < MAX_REQ_ID && !Stray(s, dg)
    requires t == ServerIn(s, dg)
    ensures Lasting(t)
  {
    if Fits(dg) && Looked(s, dg) in s.table {
      CountedFacts(s, dg);
      CountKeepsDone(Fanned(s, dg), dg);
      if s.table[Looked(s, dg)].count >= DatagramCountOf(dg) {
        ClearLasts(s, t, Looked(s, dg));
      } else {
        assert t.table.Keys == s.table.Keys;
        LivesOnly(s, t);
      }
    } else {
      LivesOnly(s, t);
    }
  }

  lemma TimerLasts(s: State, t: State)
    requires Shaped(s) && Lasting(s) && t == Refresh(s)
    ensures Lasting(t)
  {
    LivesOnly(s, t);
  }

  lemma StepLasts(s: State, e: Event)
    requires Good(s) && Lasting(s) && Legal(e) && (e.FromServer? ==> !Stray(s, e.dg))
    ensures Lasting(Step(s, e))
  {
    match e
    case FromClient(ip, dg) => ClientLasts(s, ip, dg);
    case FromServer(dg) => ServerLasts(s, Step(s, e), dg);
    case Timer => TimerLasts(s, Refresh(s));
  }

  lemma {:induction false} TidyRunsLast(clock: nat -> int, es: seq<Event>)
    requires AllLegal(es) && TidyRun(clock, es)
    ensures Lasting(Run(clock, es))
  {
    if es != [] {
      var front := es[..|es| - 1];
      RunKeepsGood(clock, front);
      TidyRunsLast(clock, front);
      StepLasts(Run(clock, front), es[|es| - 1]);
    }
  }

  /** Whether a registration is in its row, and whether it has been freed, told from the history alone. */
  lemma LifeTold(s: State, n: nat)
    requires Chained(s) && Conserved(s) && Lasting(s) && n < |s.log.regs|
    ensures var r, sig := s.log.regs[n], RegSig(s.log.regs[n]);
      && (sig in s.table && r.node in s.table[sig].chain <==> !Reused(s, n, sig) && !Completed(s, n, sig))
      && (r.node in s.log.freed <==> Reused(s, n, sig) || Completed(s, n, sig))
  {
    var r, sig := s.log.regs[n], RegSig(s.log.regs[n]);
    assert Lasts(s, n) && Settled(s, n) && Numbered(s, n);
    if sig in s.table {
      ChainMeaning(s, sig);
      assert r.node in s.table[sig].chain <==> Awaits(s.log.regs, Since(s, sig), sig, r.node);
    }
  }

  /** MAIN.  In every run without stray completions, a registration is in its row if and only if, since it was
      made, no creation reused a ring slot naming its signature and no reply completed the row; otherwise its
      packet has been freed. */
  lemma WaitsUntilEnded(clock: nat -> int, es: seq<Event>, n: nat)
    requires AllLegal(es) && TidyRun(clock, es) && n < |Run(clock, es).log.regs|
    ensures var s := Run(clock, es);
      var r, sig := s.log.regs[n], RegSig(s.log.regs[n]);
      && (sig in s.table && r.node in s.table[sig].chain <==> !Reused(s, n, sig) && !Completed(s, n, sig))
      && (r.node in s.log.freed <==> Reused(s, n, sig) || Completed(s, n, sig))
  {
    TidyRunsConserve(clock, es);
    TidyRunsLast(clock, es);
    LifeTold(Run(clock, es), n);
  }
}
