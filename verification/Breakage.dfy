/** A packet freed while its row stays is never put right again: a run keeps its packets in one place each if
    and only if it has no stray completion. */
module Breakage {
  import opened Bytes
  import opened Text
  import opened Wire
  import opened Protocol
  import opened Chains
  import opened Steering
  import opened Runs

  // ---- What is beyond repair ------------------------------------------------------------------------

  ghost predicate FreedTwice(s: State, i: nat, j: nat) {
    i < j < |s.log.freed| && s.log.freed[i] == s.log.freed[j]
  }

  ghost predicate StillWaiting(s: State, i: nat, sig: Sig) {
    i < |s.log.freed| && sig in s.table && s.log.freed[i] in s.table[sig].chain
  }

  /** A packet was freed twice, or freed and left in a chain. */
  ghost predicate Broken(s: State) {
    (exists i, j :: FreedTwice(s, i, j)) || (exists i, sig :: StillWaiting(s, i, sig))
  }

  lemma BrokenIsNotConserved(s: State)
    requires Chained(s) && Broken(s)
    ensures !Conserved(s)
  {
    if i: nat, j: nat :| FreedTwice(s, i, j) {
      assert !Differ(s.log.freed, i, j);
    } else {
      var i: nat, sig: Sig :| StillWaiting(s, i, sig);
      var x := s.log.freed[i];
      ChainMeaning(s, sig);
      assert Awaits(s.log.regs, Since(s, sig), sig, x);
      assert Owned(s, x.serial) && x in s.log.freed;
      assert !Settled(s, x.serial);
    }
  }

  // ---- Steps ------------------------------------------------------------------------------------------

  /** A chain of s is still there, perhaps longer, or was freed as a whole. */
  ghost predicate ChainKept(s: State, t: State, sig: Sig)
    requires sig in s.table && |s.log.freed| <= |t.log.freed|
  {
    || (sig in t.table && forall x :: x in s.table[sig].chain ==> x in t.table[sig].chain)
    || (forall x :: x in s.table[sig].chain ==> x in t.log.freed[|s.log.freed|..])
  }

  /** Nothing is taken back, and no row goes without its chain being freed. */
  ghost predicate Onward(s: State, t: State) {
    && s.log.freed <= t.log.freed
    && forall sig {:trigger ChainKept(s, t, sig)} :: sig in s.table ==> ChainKept(s, t, sig)
  }

  lemma BrokenStays(s: State, t: State)
    requires Broken(s) && Onward(s, t)
    ensures Broken(t)
  {
    if i: nat, j: nat :| FreedTwice(s, i, j) {
      assert FreedTwice(t, i, j);
    } else {
      var i: nat, sig: Sig :| StillWaiting(s, i, sig);
      var n, x := |s.log.freed|, s.log.freed[i];
      assert ChainKept(s, t, sig);
      if sig in t.table && x in t.table[sig].chain {
        assert StillWaiting(t, i, sig);
      } else {
        var k :| 0 <= k < |t.log.freed| - n && t.log.freed[n..][k] == x;
        assert FreedTwice(t, i, n + k);
      }
    }
  }

  lemma SameChainsOnward(s: State, t: State)
    requires t.log.freed == s.log.freed && s.table.Keys <= t.table.Keys
    requires forall sig :: sig in s.table ==> t.table[sig].chain == s.table[sig].chain
    ensures Onward(s, t)
  {}

  lemma RegisterOnward(s: State, ip: nat, reqId: u16, key: Key)
    requires Shaped(s)
    ensures Onward(s, Register(s, ip, reqId, key))
  {
    var t, v := Register(s, ip, reqId, key), s.ring[s.ringPtr];
    forall sig | sig in s.table
      ensures ChainKept(s, t, sig)
    {
      if sig !in t.table { assert sig == v && t.log.freed[|s.log.freed|..] == s.table[v].chain; }
    }
  }

  lemma TakeKeyBroken(s: State, ip: nat, reqId: u16, key: Key)
    requires Shaped(s) && Broken(s)
    ensures Broken(TakeKey(s, ip, reqId, key))
  {
    var i := InsertKey(s, key);
    var r := Register(i, ip, reqId, key);
    SameChainsOnward(s, i);
    BrokenStays(s, i);
    RegisterOnward(i, ip, reqId, key);
    BrokenStays(i, r);
    SameChainsOnward(r, SendBatch(r, true));
    BrokenStays(r, SendBatch(r, true));
  }

  lemma {:induction false} TakeKeysBroken(s: State, ip: nat, reqId: u16, keys: seq<Key>)
    requires Shaped(s) && Broken(s)
    ensures Broken(TakeKeys(s, ip, reqId, keys))
  {
    if keys != [] {
      TakeKeysBroken(s, ip, reqId, keys[..|keys| - 1]);
      TakeKeyBroken(TakeKeys(s, ip, reqId, keys[..|keys| - 1]), ip, reqId, keys[|keys| - 1]);
    }
  }

  lemma IdleBroken(s: State)
    requires Shaped(s) && Broken(s)
    ensures Broken(SendIfIdle(s))
  {
    SameChainsOnward(s, SendIfIdle(s));
    BrokenStays(s, SendIfIdle(s));
  }

  /** A chain freed while its row stays breaks what was whole. */
  lemma StrayIsBroken(s: State, dg: seq<byte>)
    requires Chained(s) && IsDatagram(dg) && ReqIdOf(dg) < MAX_REQ_ID && Stray(s, dg)
    ensures Broken(ServerIn(s, dg))
  {
    var t, look := ServerIn(s, dg), s.lastKey;
    CountedFacts(s, dg);
    assert Chain(s, look);
    assert t.log.freed[|s.log.freed|] == s.table[look].chain[0];
    assert StillWaiting(t, |s.log.freed|, look);
  }

  /** Any other reply repairs nothing. */
  lemma ServerBroken(s: State, dg: seq<byte>)
    requires Chained(s) && Broken(s) && IsDatagram(dg) && ReqIdOf(dg) < MAX_REQ_ID && !Stray(s, dg)
    ensures Broken(ServerIn(s, dg))
  {
    var t := ServerIn(s, dg);
    if Fits(dg) && Looked(s, dg) in s.table {
      CountedFacts(s, dg);
      TallyOnward(s, t, Looked(s, dg), DatagramCountOf(dg));
    } else {
      SameChainsOnward(s, t);
    }
    BrokenStays(s, t);
  }

  lemma TallyOnward(s: State, t: State, look: Sig, expected: nat)
    requires look in s.table
    requires if s.table[look].count < expected then
               && t.table == s.table[look := s.table[look].(count := s.table[look].count + 1)]
               && t.log.freed == s.log.freed
             else t.table == s.table - {look} && t.log.freed == s.log.freed + s.table[look].chain
    ensures Onward(s, t)
  {
    forall sig | sig in s.table
      ensures ChainKept(s, t, sig)
    {
      if sig !in t.table { assert t.log.freed[|s.log.freed|..] == s.table[look].chain; }
    }
  }

  lemma TimerBroken(s: State)
    requires Shaped(s) && Broken(s)
    ensures Broken(Refresh(s))
  {
    SameChainsOnward(s, Refresh(s));
    BrokenStays(s, Refresh(s));
  }

  lemma StepBroken(s: State, e: Event)
    requires Good(s) && Legal(e) && (Broken(s) || (e.FromServer? && Stray(s, e.dg)))
    ensures Broken(Step(s, e))
  {
    match e
    case FromClient(ip, dg) =>
      if Fits(dg) {
        TakeKeysBroken(s, ip, ReqIdOf(dg), RequestKeys(PayloadOf(dg)));
        IdleBroken(TakeKeys(s, ip, ReqIdOf(dg), RequestKeys(PayloadOf(dg))));
      }
    case FromServer(dg) => if Stray(s, dg) { StrayIsBroken(s, dg); } else { ServerBroken(s, dg); }
    case Timer => TimerBroken(s);
  }

  // ---- Runs -----------------------------------------------------------------------------------------------

  lemma {:induction false} UntidyIsBroken(clock: nat -> int, es: seq<Event>)
    requires AllLegal(es) && !TidyRun(clock, es)
    ensures Broken(Run(clock, es))
  {
    if es != [] {
      var front := es[..|es| - 1];
      RunKeepsGood(clock, front);
      if !TidyRun(clock, front) { UntidyIsBroken(clock, front); }
      StepBroken(Run(clock, front), es[|es| - 1]);
    }
  }

  /** MAIN.  After a run every client packet is in exactly one place if and only if no reply of the run was a
      stray completion; nothing later makes up for one. */
  lemma ConservedIffTidy(clock: nat -> int, es: seq<Event>)
    requires AllLegal(es)
    ensures Conserved(Run(clock, es)) <==> TidyRun(clock, es)
  {
    if TidyRun(clock, es) {
      TidyRunsConserve(clock, es);
    } else {
      RunKeepsGood(clock, es);
      UntidyIsBroken(clock, es);
      BrokenIsNotConserved(Run(clock, es));
    }
  }
}
