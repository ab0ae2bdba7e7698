/** Every key of a request but the first is registered with a copy of the packet; by then the packet itself,
    registered with the first key, may have been evicted and freed.  When that happens, and when not. */
module Copies {
  import opened Bytes
  import opened Text
  import opened Wire
  import opened Protocol
  import opened Aging
  import opened Chains
  import opened Steering
  import opened Runs
  import opened Lifetime

  // ---- What the keys of a request add --------------------------------------------------------------

  /** Registrations and creations are only added, the latter by registrations made after s; nothing is
      completed. */
  ghost predicate Extends(s: State, t: State) {
    && s.log.regs <= t.log.regs && s.log.made <= t.log.made && t.log.done == s.log.done
    && forall c :: Created(s) <= c < Created(t) ==> MadeSince(t, c, |s.log.regs|)
  }

  predicate MadeSince(t: State, c: nat, n: nat)
    requires c < Created(t)
  {
    t.log.made[c].since >= n
  }

  lemma ExtendsOn(s: State, t: State, u: State)
    requires Extends(s, t) && Extends(t, u)
    ensures Extends(s, u)
  {
    forall c | Created(s) <= c < Created(u) ensures MadeSince(u, c, |s.log.regs|) {
      if c < Created(t) { assert MadeSince(t, c, |s.log.regs|); } else { assert MadeSince(u, c, |t.log.regs|); }
    }
  }

  lemma TakeKeyExtends(s: State, t: State, ip: nat, reqId: u16, key: Key)
    requires Shaped(s) && t == TakeKey(s, ip, reqId, key)
    ensures Extends(s, t) && |t.log.regs| == |s.log.regs| + 1
    ensures t.log.regs[|s.log.regs|] == Reg(Epoch(s), key, Node(|s.log.regs|, ip, reqId))
  {}

  /** From the state after the first i keys to the state after the first j. */
  lemma {:induction false} KeysExtend(s: State, ip: nat, reqId: u16, keys: seq<Key>, i: nat, j: nat)
    requires Shaped(s) && i <= j <= |keys|
    ensures Extends(TakeKeys(s, ip, reqId, keys[..i]), TakeKeys(s, ip, reqId, keys[..j]))
  {
    if i < j {
      var before := TakeKeys(s, ip, reqId, keys[..j - 1]);
      assert keys[..j][..j - 1] == keys[..j - 1];
      KeysExtend(s, ip, reqId, keys, i, j - 1);
      TakeKeyExtends(before, TakeKeys(s, ip, reqId, keys[..j]), ip, reqId, keys[j - 1]);
      ExtendsOn(TakeKeys(s, ip, reqId, keys[..i]), before, TakeKeys(s, ip, reqId, keys[..j]));
    }
  }

  lemma OneKey(s: State, ip: nat, reqId: u16, keys: seq<Key>)
    requires Shaped(s) && keys != []
    ensures TakeKeys(s, ip, reqId, keys[..1]) == TakeKey(s, ip, reqId, keys[0])
  {
    assert keys[..1][..0] == [];
  }

  // ---- The packet of the request ------------------------------------------------------------------------

  /** The packet as it was registered, with the first key. */
  function FirstNode(s: State, ip: nat, reqId: u16): Node {
    Node(|s.log.regs|, ip, reqId)
  }

  lemma FirstRegistered(s: State, t: State, ip: nat, reqId: u16, keys: seq<Key>, i: nat)
    requires Shaped(s) && 0 < i <= |keys| && t == TakeKeys(s, ip, reqId, keys[..i])
    ensures Extends(TakeKeys(s, ip, reqId, keys[..1]), t) && t.log.done == s.log.done
    ensures |s.log.regs| < |t.log.regs|
    ensures t.log.regs[|s.log.regs|] == Reg(Epoch(s), keys[0], FirstNode(s, ip, reqId))
  {
    var u := TakeKeys(s, ip, reqId, keys[..1]);
    OneKey(s, ip, reqId, keys);
    TakeKeyExtends(s, u, ip, reqId, keys[0]);
    KeysExtend(s, ip, reqId, keys, 1, i);
    assert t.log.regs[|s.log.regs|] == u.log.regs[|s.log.regs|];
  }

  /** Among the first i keys, none made a row in a ring slot that named the signature of the first. */
  ghost predicate CopySound(s: State, ip: nat, reqId: u16, keys: seq<Key>, i: nat)
    requires Shaped(s) && 0 < i <= |keys|
  {
    !Reused(TakeKeys(s, ip, reqId, keys[..i]), |s.log.regs|, Signature(s.reqId, keys[0]))
  }

  /** MAIN.  The copy for key i is taken of a packet not given back if and only if no row created by the keys
      before it reused a ring slot naming the signature of the first key. */
  lemma CopyOfOwnPacket(s: State, ip: nat, reqId: u16, keys: seq<Key>, i: nat)
    requires Sane(s) && Conserved(s) && Lasting(s) && ValidKeys(keys) && 0 < i < |keys|
    ensures FirstNode(s, ip, reqId) !in TakeKeys(s, ip, reqId, keys[..i]).log.freed <==>
            CopySound(s, ip, reqId, keys, i)
  {
    var t, n := TakeKeys(s, ip, reqId, keys[..i]), |s.log.regs|;
    FirstRegistered(s, t, ip, reqId, keys, i);
    SaneTakeKeys(s, ip, reqId, keys[..i]);
    TakeKeysConserves(s, ip, reqId, keys[..i]);
    TakeKeysLast(s, ip, reqId, keys[..i]);
    LifeTold(t, n);
    assert RegSig(t.log.regs[n]) == Signature(s.reqId, keys[0]);
    forall d: nat ensures !Completes(t, d, n, Signature(s.reqId, keys[0])) {
      if d < |s.log.done| { assert DoneBy(s, d, n); }
    }
  }

  /** The packet is still ours when its copy for key i is taken. */
  ghost predicate StillOurs(s: State, ip: nat, reqId: u16, keys: seq<Key>, i: nat)
    requires Shaped(s) && i <= |keys|
  {
    FirstNode(s, ip, reqId) !in TakeKeys(s, ip, reqId, keys[..i]).log.freed
  }

  ghost predicate AlwaysOurs(s: State, ip: nat, reqId: u16, keys: seq<Key>)
    requires Shaped(s)
  {
    forall i {:trigger StillOurs(s, ip, reqId, keys, i)} :: 0 < i < |keys| ==> StillOurs(s, ip, reqId, keys, i)
  }

  lemma SoundIsOurs(s: State, e: Event)
    requires Sane(s) && Conserved(s) && Lasting(s) && Legal(e) && CopiesSound(s, e)
    ensures e.FromClient? && Fits(e.dg) ==> AlwaysOurs(s, e.ip, ReqIdOf(e.dg), RequestKeys(PayloadOf(e.dg)))
  {
    if e.FromClient? && Fits(e.dg) {
      var keys := RequestKeys(PayloadOf(e.dg));
      RequestKeysValid(PayloadOf(e.dg));
      forall i | 0 < i < |keys|
        ensures StillOurs(s, e.ip, ReqIdOf(e.dg), keys, i)
      {
        assert CopySound(s, e.ip, ReqIdOf(e.dg), keys, i);
        CopyOfOwnPacket(s, e.ip, ReqIdOf(e.dg), keys, i);
      }
    }
  }

  // ---- The same by counting ring slots -------------------------------------------------------------------

  /** The slot e creations ahead names this signature. */
  predicate Ahead(u: State, e: nat, sig: Sig)
    requires Shaped(u)
  {
    u.ring[(u.ringPtr + e) % MAP_ENTRIES] == sig
  }

  lemma SlotAhead(n: nat, e: nat)
    ensures (n % MAP_ENTRIES + e) % MAP_ENTRIES == (n + e) % MAP_ENTRIES
  {}

  lemma SmallSlot(c: nat)
    ensures c % MAP_ENTRIES == if c >= MAP_ENTRIES then (c - MAP_ENTRIES) % MAP_ENTRIES else c
  {}

  /** Slot e ahead is named by the creation that slot e will be taken from. */
  lemma AheadIsOld(u: State, e: nat, sig: Sig)
    requires Ringed(u) && e < MAP_ENTRIES && sig != []
    ensures Ahead(u, e, sig) <==>
      Created(u) + e >= MAP_ENTRIES && SigOf(u.log.made[Created(u) + e - MAP_ENTRIES]) == sig
  {
    var c := Created(u) + e;
    SlotAhead(Created(u), e);
    SmallSlot(c);
    if c >= MAP_ENTRIES {
      assert Remembered(u, c - MAP_ENTRIES);
    } else {
      assert Unused(u, c);
    }
  }

  /** A slot ahead is reused once more rows have been created than lie before it. */
  lemma AheadIsReused(u: State, t: State, n: nat, sig: Sig, e: nat)
    requires Ringed(u) && Extends(u, t) && n < |u.log.regs| && sig != []
    requires e < MAP_ENTRIES && Ahead(u, e, sig) && e < Created(t) - Created(u)
    ensures Reused(t, n, sig)
  {
    AheadIsOld(u, e, sig);
    assert MadeSince(t, Created(u) + e, |u.log.regs|);
    assert Reuses(t, Created(u) + e, n, sig);
  }

  /** The slot a row was created in lies ahead. */
  lemma OwnSlotAhead(u: State, sig: Sig) returns (e: nat)
    requires Ringed(u) && sig in u.table
    ensures e < MAP_ENTRIES && Ahead(u, e, sig)
    ensures sig in u.log.born && e + Created(u) == u.log.born[sig] + MAP_ENTRIES
  {
    assert Row(u, sig);
    e := u.log.born[sig] + MAP_ENTRIES - Created(u);
    assert sig != [];
    AheadIsOld(u, e, sig);
  }

  /** MAIN.  Counted before the call: let d be the number of ring slots between the next one to be used and the
      first that names the row of the first key.  The copy for key i is taken of a packet given back if and only
      if more than d rows have been created since. */
  lemma GivenBackAfter(s: State, u: State, t: State, ip: nat, reqId: u16, keys: seq<Key>, i: nat, d: nat)
    requires Sane(s) && Conserved(s) && Lasting(s) && ValidKeys(keys) && 0 < i < |keys|
    requires u == TakeKeys(s, ip, reqId, keys[..1]) && t == TakeKeys(s, ip, reqId, keys[..i])
    requires d < MAP_ENTRIES && Ahead(u, d, Signature(s.reqId, keys[0]))
    requires forall e :: 0 <= e < d ==> !Ahead(u, e, Signature(s.reqId, keys[0]))
    ensures FirstNode(s, ip, reqId) in t.log.freed <==> Created(t) - Created(u) > d
  {
    var n, sig := |s.log.regs|, Signature(s.reqId, keys[0]);
    CopyOfOwnPacket(s, ip, reqId, keys, i);
    FirstRegistered(s, t, ip, reqId, keys, i);
    FirstRegistered(s, u, ip, reqId, keys, 1);
    SaneTakeKeys(s, ip, reqId, keys[..1]);
    TakeKeysLast(s, ip, reqId, keys[..1]);
    if Created(t) - Created(u) > d {
      AheadIsReused(u, t, n, sig, d);
    }
    if Reused(t, n, sig) {
      ReusedIsAhead(s, u, t, ip, reqId, keys, d);
    }
  }

  lemma ReusedIsAhead(s: State, u: State, t: State, ip: nat, reqId: u16, keys: seq<Key>, d: nat)
    requires Ringed(u) && Lasting(u) && Extends(u, t) && keys != [] && |u.log.regs| == |s.log.regs| + 1
    requires d < MAP_ENTRIES && forall e :: 0 <= e < d ==> !Ahead(u, e, Signature(s.reqId, keys[0]))
    requires Reused(t, |s.log.regs|, Signature(s.reqId, keys[0]))
    ensures Created(t) - Created(u) > d
  {
    var n, sig := |s.log.regs|, Signature(s.reqId, keys[0]);
    var c: nat :| Reuses(t, c, n, sig);
    assert c < Created(u) ==> MadeBy(u, c);
    if c - Created(u) < d { AheadIsOld(u, c - Created(u), sig); }
  }

  // ---- Runs in which no copy is taken of a packet given back ----------------------------------------------

  /** Every copy the request makes is taken of a packet not given back. */
  ghost predicate CopiesSound(s: State, e: Event)
    requires Shaped(s) && Legal(e)
  {
    e.FromClient? && Fits(e.dg) ==>
      forall i :: 0 < i < |RequestKeys(PayloadOf(e.dg))| ==>
        CopySound(s, e.ip, ReqIdOf(e.dg), RequestKeys(PayloadOf(e.dg)), i)
  }

  /** No stray completion, and no copy of a packet given back. */
  ghost predicate CleanEvent(s: State, e: Event)
    requires Shaped(s) && Legal(e)
  {
    (e.FromServer? ==> !Stray(s, e.dg)) && CopiesSound(s, e)
  }

  ghost predicate CleanRun(clock: nat -> int, es: seq<Event>)
    requires AllLegal(es)
  {
    if es == [] then true
    else
      var front, e := es[..|es| - 1], es[|es| - 1];
      CleanRun(clock, front) && CleanEvent(Run(clock, front), e)
  }

  lemma {:induction false} CleanIsTidy(clock: nat -> int, es: seq<Event>)
    requires AllLegal(es) && CleanRun(clock, es)
    ensures TidyRun(clock, es)
  {
    if es != [] { CleanIsTidy(clock, es[..|es| - 1]); }
  }
}
