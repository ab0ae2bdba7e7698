/** Who waits for which row, and what becomes of every client packet. */
module Chains {
  import opened Bytes
  import opened Text
  import opened Protocol
  import opened Aging

  /** The signature a registration was made under. */
  function RegSig(r: Reg): Sig {
    Signature(r.epoch % MAX_REQ_ID, r.key)
  }

  /** The packets registered under `sig` from registration `since` on, newest first. */
  function Waiting(regs: seq<Reg>, since: nat, sig: Sig): seq<Node> {
    if |regs| <= since then []
    else
      var n := |regs| - 1;
      var before := Waiting(regs[..n], since, sig);
      if RegSig(regs[n]) == sig then [regs[n].node] + before else before
  }

  // ---- The invariants ----------------------------------------------------------------------------

  function Since(s: State, sig: Sig): nat
    requires sig in s.log.born && s.log.born[sig] < Created(s)
  {
    s.log.made[s.log.born[sig]].since
  }

  /** A row's chain is exactly the registrations under its signature since its creation, the first of which
      created it. */
  ghost predicate Chain(s: State, sig: Sig)
    requires sig in s.table
  {
    && sig in s.log.born && s.log.born[sig] < Created(s)
    && Since(s, sig) < |s.log.regs|
    && s.log.regs[Since(s, sig)].epoch == s.log.made[s.log.born[sig]].epoch
    && s.table[sig].chain == Waiting(s.log.regs, Since(s, sig), sig)
    && s.table[sig].chain != []
  }

  predicate Numbered(s: State, n: nat)
    requires n < |s.log.regs|
  {
    s.log.regs[n].node.serial == n
  }

  ghost predicate Chained(s: State) {
    && Shaped(s)
    && s.reqId == Epoch(s) % MAX_REQ_ID
    && (forall sig {:trigger Chain(s, sig)} :: sig in s.table ==> Chain(s, sig))
    && (forall n :: 0 <= n < |s.log.regs| ==> Numbered(s, n))
  }

  /** Registration n is in the chain of its signature's present row. */
  ghost predicate Owned(s: State, n: nat)
    requires n < |s.log.regs|
  {
    var sig := RegSig(s.log.regs[n]);
    && sig in s.table && sig in s.log.born && s.log.born[sig] < Created(s)
    && Since(s, sig) <= n
  }

  /** Registration n is either in its chain or freed. */
  ghost predicate Settled(s: State, n: nat)
    requires n < |s.log.regs|
  {
    s.log.regs[n].node in s.log.freed <==> !Owned(s, n)
  }

  ghost predicate NoRepeat(xs: seq<Node>) {
    forall i, j :: 0 <= i < j < |xs| ==> Differ(xs, i, j)
  }

  predicate Differ(xs: seq<Node>, i: nat, j: nat)
    requires i < |xs| && j < |xs|
  {
    xs[i] != xs[j]
  }

  predicate WasRegistered(s: State, x: Node) {
    x.serial < |s.log.regs| && s.log.regs[x.serial].node == x
  }

  /** Every client packet is in exactly one place, and freed at most once. */
  ghost predicate Conserved(s: State) {
    && NoRepeat(s.log.freed)
    && (forall i {:trigger WasRegistered(s, s.log.freed[i])} ::
         0 <= i < |s.log.freed| ==> WasRegistered(s, s.log.freed[i]))
    && (forall n :: 0 <= n < |s.log.regs| ==> Settled(s, n))
  }

  // ---- What a chain contains -----------------------------------------------------------------------

  lemma WaitingSnoc(regs: seq<Reg>, r: Reg, since: nat, sig: Sig)
    requires since <= |regs|
    ensures Waiting(regs + [r], since, sig) ==
            if RegSig(r) == sig then [r.node] + Waiting(regs, since, sig) else Waiting(regs, since, sig)
  {
    assert (regs + [r])[..|regs|] == regs;
  }

  ghost predicate AllNumbered(regs: seq<Reg>) {
    forall n :: 0 <= n < |regs| ==> NumberedIn(regs, n)
  }

  predicate NumberedIn(regs: seq<Reg>, n: nat)
    requires n < |regs|
  {
    regs[n].node.serial == n
  }

  /** Node x is one of those registered under `sig` since then. */
  predicate Awaits(regs: seq<Reg>, since: nat, sig: Sig, x: Node) {
    since <= x.serial < |regs| && regs[x.serial].node == x && RegSig(regs[x.serial]) == sig
  }

  /** A chain holds each registration it should hold once, and nothing else. */
  lemma {:induction false} WaitingMeaning(regs: seq<Reg>, since: nat, sig: Sig)
    requires AllNumbered(regs)
    ensures forall x :: x in Waiting(regs, since, sig) <==> Awaits(regs, since, sig, x)
    ensures NoRepeat(Waiting(regs, since, sig))
  {
    var w := Waiting(regs, since, sig);
    if |regs| > since {
      var n := |regs| - 1;
      var front := regs[..n];
      assert AllNumbered(front) by {
        forall i | 0 <= i < n ensures NumberedIn(front, i) { assert NumberedIn(regs, i); }
      }
      WaitingMeaning(front, since, sig);
      assert NumberedIn(regs, n);
      forall x
        ensures x in w <==> Awaits(regs, since, sig, x)
      {
        assert x in Waiting(front, since, sig) <==> Awaits(front, since, sig, x);
      }
      var before := Waiting(front, since, sig);
      assert regs[n].node !in before by { assert !Awaits(front, since, sig, regs[n].node); }
      forall i, j | 0 <= i < j < |w|
        ensures Differ(w, i, j)
      {
        if w != before {
          if i > 0 { assert Differ(before, i - 1, j - 1); } else { assert w[j] == before[j - 1]; }
        } else {
          assert Differ(before, i, j);
        }
      }
    }
  }

  lemma ChainMeaning(s: State, sig: Sig)
    requires Chained(s) && sig in s.table
    ensures Chain(s, sig) && NoRepeat(s.table[sig].chain)
    ensures forall x :: x in s.table[sig].chain <==> Awaits(s.log.regs, Since(s, sig), sig, x)
  {
    assert Chain(s, sig);
    forall n | 0 <= n < |s.log.regs|
      ensures NumberedIn(s.log.regs, n)
    {
      assert Numbered(s, n);
    }
    WaitingMeaning(s.log.regs, Since(s, sig), sig);
  }

  /** MAIN.  When packets are conserved, each one ever registered is either freed exactly once and in no
      chain, or never freed and in exactly one chain, once. */
  lemma OnePlaceEach(s: State, n: nat)
    requires Chained(s) && Conserved(s) && n < |s.log.regs|
    ensures var x := s.log.regs[n].node;
      && NoRepeat(s.log.freed)
      && (forall sig :: sig in s.table ==> NoRepeat(s.table[sig].chain))
      && (x in s.log.freed <==> forall sig :: sig in s.table ==> x !in s.table[sig].chain)
      && (forall a, b :: a in s.table && b in s.table && x in s.table[a].chain && x in s.table[b].chain ==> a == b)
  {
    var r := s.log.regs[n];
    var x, own := r.node, RegSig(r);
    assert Numbered(s, n) && Settled(s, n);
    forall sig | sig in s.table
      ensures NoRepeat(s.table[sig].chain)
      ensures x in s.table[sig].chain <==> sig == own && Owned(s, n)
    {
      ChainMeaning(s, sig);
      assert x in s.table[sig].chain <==> Awaits(s.log.regs, Since(s, sig), sig, x);
    }
  }

  // ---- Keeping the chains ---------------------------------------------------------------------------------

  /** Rows may go or be counted, but no chain, creation or registration changes. */
  ghost predicate SameRows(s: State, t: State) {
    && Shaped(t)
    && t.table.Keys <= s.table.Keys
    && (forall sig :: sig in t.table ==> t.table[sig].chain == s.table[sig].chain)
    && t.log.made == s.log.made && t.log.born == s.log.born && t.log.regs == s.log.regs
    && t.reqId == Epoch(t) % MAX_REQ_ID
  }

  lemma RowsOnly(s: State, t: State)
    requires Chained(s) && SameRows(s, t)
    ensures Chained(t)
  {
    forall sig | sig in t.table ensures Chain(t, sig) { assert Chain(s, sig); }
    forall n | 0 <= n < |t.log.regs| ensures Numbered(t, n) { assert Numbered(s, n); }
  }

  lemma RegisterNumbers(s: State, ip: nat, reqId: u16, key: Key)
    requires Chained(s)
    ensures var t := Register(s, ip, reqId, key);
      forall n :: 0 <= n < |t.log.regs| ==> Numbered(t, n)
  {
    var t := Register(s, ip, reqId, key);
    forall n | 0 <= n < |t.log.regs| ensures Numbered(t, n) {
      if n < |s.log.regs| { assert Numbered(s, n); }
    }
  }

  lemma RegisterChains(s: State, ip: nat, reqId: u16, key: Key)
    requires Chained(s)
    ensures Chained(Register(s, ip, reqId, key))
  {
    var t := Register(s, ip, reqId, key);
    var sig := Signature(s.reqId, key);
    var r := Reg(Epoch(s), key, Node(|s.log.regs|, ip, reqId));
    assert RegSig(r) == sig;
    RegisterNumbers(s, ip, reqId, key);
    forall x | x in t.table
      ensures Chain(t, x)
    {
      if x == sig && sig !in s.table {
        WaitingSnoc(s.log.regs, r, |s.log.regs|, sig);
      } else {
        assert Chain(s, x);
        WaitingSnoc(s.log.regs, r, Since(s, x), x);
      }
    }
  }

  // ---- Keeping the packets --------------------------------------------------------------------------------------

  /** Dropping a row and freeing its chain. */
  lemma FreeRow(s: State, t: State, v: Sig)
    requires Chained(s) && Conserved(s) && v in s.table
    requires t.table.Keys == s.table.Keys - {v} && t.log.freed == s.log.freed + s.table[v].chain
    requires t.log.made == s.log.made && t.log.born == s.log.born && t.log.regs == s.log.regs
    ensures Conserved(t)
  {
    var chain := s.table[v].chain;
    ChainMeaning(s, v);
    forall n | 0 <= n < |t.log.regs|
      ensures Settled(t, n)
    {
      assert Settled(s, n) && Numbered(s, n);
      var x := s.log.regs[n].node;
      assert x in chain <==> Awaits(s.log.regs, Since(s, v), v, x);
    }
    FreedApart(s, v);
    forall i | 0 <= i < |t.log.freed|
      ensures WasRegistered(t, t.log.freed[i])
    {
      if i < |s.log.freed| {
        assert WasRegistered(s, s.log.freed[i]);
      } else {
        var x := chain[i - |s.log.freed|];
        assert x in chain;
        assert Awaits(s.log.regs, Since(s, v), v, x);
      }
    }
  }

  /** What a chain frees was not freed before. */
  lemma FreedApart(s: State, v: Sig)
    requires Chained(s) && Conserved(s) && v in s.table
    ensures NoRepeat(s.log.freed + s.table[v].chain)
  {
    var freed, chain := s.log.freed, s.table[v].chain;
    var all := freed + chain;
    ChainMeaning(s, v);
    forall i, j | 0 <= i < j < |all|
      ensures Differ(all, i, j)
    {
      if j < |freed| {
        assert Differ(freed, i, j);
      } else if i >= |freed| {
        assert Differ(chain, i - |freed|, j - |freed|);
      } else {
        var x := chain[j - |freed|];
        assert x in chain;
        assert Awaits(s.log.regs, Since(s, v), v, x);
        assert Settled(s, x.serial);
        assert x !in freed;
      }
    }
  }

  lemma SamePackets(s: State, t: State)
    requires Conserved(s) && t.table.Keys == s.table.Keys
    requires t.log.made == s.log.made && t.log.born == s.log.born && t.log.regs == s.log.regs
    requires t.log.freed == s.log.freed
    ensures Conserved(t)
  {
    forall n | 0 <= n < |t.log.regs| ensures Settled(t, n) { assert Settled(s, n); }
    forall i | 0 <= i < |t.log.freed| ensures WasRegistered(t, t.log.freed[i]) {
      assert WasRegistered(s, s.log.freed[i]);
    }
  }

  /** The table after eviction, before the new row goes in. */
  function MadeRoom(s: State): State
    requires Shaped(s)
  {
    s.(table := Evicted(s), log := s.log.(freed := s.log.freed + Victims(s)))
  }

  lemma EvictConserves(s: State)
    requires Chained(s) && Conserved(s)
    ensures Chained(MadeRoom(s)) && Conserved(MadeRoom(s))
  {
    var v := s.ring[s.ringPtr];
    RowsOnly(s, MadeRoom(s));
    if v in s.table {
      FreeRow(s, MadeRoom(s), v);
    } else {
      assert s.table.Keys - {v} == s.table.Keys;
      SamePackets(s, MadeRoom(s));
    }
  }

  /** A new registration is owned, and takes nothing from the others. */
  lemma AddConserves(s: State, t: State, r: Reg)
    requires Chained(s) && Conserved(s) && RegSig(r) == Signature(s.reqId, r.key) && r.node.serial == |s.log.regs|
    requires t.log.regs == s.log.regs + [r] && t.log.freed == s.log.freed
    requires t.table.Keys == s.table.Keys + {RegSig(r)}
    requires RegSig(r) in s.table ==> t.log.made == s.log.made && t.log.born == s.log.born
    requires RegSig(r) !in s.table ==>
      && t.log.made == s.log.made + [Made(r.epoch, r.key, |s.log.regs|)]
      && t.log.born == s.log.born[RegSig(r) := |s.log.made|]
    ensures Conserved(t)
  {
    var n := |s.log.regs|;
    forall i | 0 <= i < |t.log.freed| ensures WasRegistered(t, t.log.freed[i]) {
      assert WasRegistered(s, s.log.freed[i]);
    }
    forall m | 0 <= m < |t.log.regs|
      ensures Settled(t, m)
    {
      if m < n {
        assert Settled(s, m);
      } else {
        forall i | 0 <= i < |s.log.freed|
          ensures s.log.freed[i] != r.node
        {
          assert WasRegistered(s, s.log.freed[i]);
        }
        if RegSig(r) in s.table { assert Chain(s, RegSig(r)); }
      }
    }
  }

  lemma RegisterConserves(s: State, ip: nat, reqId: u16, key: Key)
    requires Chained(s) && Conserved(s)
    ensures Conserved(Register(s, ip, reqId, key))
  {
    var t := Register(s, ip, reqId, key);
    var r := Reg(Epoch(s), key, Node(|s.log.regs|, ip, reqId));
    if Signature(s.reqId, key) in s.table {
      assert t.table.Keys == s.table.Keys + {RegSig(r)};
      AddConserves(s, t, r);
    } else {
      EvictConserves(s);
      AddConserves(MadeRoom(s), t, r);
    }
  }
}
