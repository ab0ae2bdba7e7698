/** What a reply does: who receives it, when its row goes, and when its packets are accounted for. */
module Steering {
  import opened Bytes
  import opened Text
  import opened Wire
  import opened Protocol
  import opened Chains

  // ---- Inside one reply -----------------------------------------------------------------------------

  /** What counting a reply, and sending a batch when there is room, leaves alone. */
  predicate SameClients(s: State, t: State) {
    && t.table == s.table && t.ring == s.ring && t.ringPtr == s.ringPtr
    && t.keyHold == s.keyHold && t.lastKey == s.lastKey && t.lastSeq == s.lastSeq
    && t.log.regs == s.log.regs && t.log.made == s.log.made && t.log.born == s.log.born
    && t.log.toClients == s.log.toClients && t.log.freed == s.log.freed
  }

  lemma CountKeepsClients(s: State, dg: seq<byte>)
    requires Shaped(s) && IsDatagram(dg) && ReqIdOf(dg) < MAX_REQ_ID
    ensures SameClients(s, CountReply(s, dg))
  {}

  lemma CountedFacts(s: State, dg: seq<byte>)
    requires Shaped(s) && IsDatagram(dg) && ReqIdOf(dg) < MAX_REQ_ID
    requires Fits(dg) && Looked(s, dg) in s.table
    ensures var c, look := Counted(s, dg), Looked(s, dg);
      && c.table == s.table
      && c.keyHold == Named(s, dg).keyHold && c.lastKey == Named(s, dg).lastKey
      && c.log.regs == s.log.regs && c.log.made == s.log.made && c.log.born == s.log.born
      && c.log.freed == s.log.freed
      && c.log.toClients == s.log.toClients + FanOut(dg, s.table[look].chain)
      && ServerIn(s, dg) == Tally(c, look, DatagramCountOf(dg))
  {
    CountKeepsClients(Fanned(s, dg), dg);
  }

  /** Each client of the chain receives the reply under its own id, in the order of the chain. */
  lemma {:induction false} FanOutAt(dg: seq<byte>, chain: seq<Node>, i: nat)
    requires IsDatagram(dg) && i < |chain|
    ensures FanOut(dg, chain)[i] == Delivery(chain[i].ip, Readdressed(dg, chain[i].reqId))
  {
    if i < |chain| - 1 {
      FanOutAt(dg, chain[..|chain| - 1], i);
    }
  }

  // ---- A whole value ------------------------------------------------------------------------------------

  /** The d datagrams of one value: the first names the key, the others do not. */
  ghost predicate Value(dgs: seq<seq<byte>>, id: nat, key: Key) {
    && dgs != [] && id < MAX_REQ_ID
    && forall i :: 0 <= i < |dgs| ==> Part(dgs, i, id, key)
  }

  ghost predicate Part(dgs: seq<seq<byte>>, i: nat, id: nat, key: Key)
    requires i < |dgs|
  {
    && IsDatagram(dgs[i]) && Fits(dgs[i])
    && ReqIdOf(dgs[i]) == id && DatagramCountOf(dgs[i]) == |dgs|
    && KeyOf(dgs[i]) == if i == 0 then Some(key) else None
  }

  /** A value as the server writes it: the first datagram starts with "VALUE" and the key, and in no other do
      the bytes of "VALUE" stand before a NUL. */
  lemma ValueAsWritten(dgs: seq<seq<byte>>, id: nat, key: Key, rest: seq<byte>)
    requires dgs != [] && id < MAX_REQ_ID && ValidKey(key)
    requires forall i :: 0 <= i < |dgs| ==>
      && IsDatagram(dgs[i]) && Fits(dgs[i]) && ReqIdOf(dgs[i]) == id && DatagramCountOf(dgs[i]) == |dgs|
    requires PayloadOf(dgs[0]) == VALUE + [SPACE] + key + [SPACE] + rest
    requires forall i, j :: 0 < i < |dgs| ==> !SpellsValue(dgs[i], j)
    ensures Value(dgs, id, key) && forall i :: 0 <= i < |dgs| ==> ValidReply(dgs[i])
  {
    forall i | 0 <= i < |dgs|
      ensures Part(dgs, i, id, key) && ValidReply(dgs[i])
    {
      if i == 0 { ReplyNamesKey(dgs[0], key, rest); } else { NamesNoneIffNoValue(dgs[i]); }
    }
  }

  predicate Usable(dgs: seq<seq<byte>>) {
    forall i :: 0 <= i < |dgs| ==> IsDatagram(dgs[i]) && ReqIdOf(dgs[i]) < MAX_REQ_ID
  }

  function Deliver(s: State, dgs: seq<seq<byte>>): (t: State)
    requires Shaped(s) && Usable(dgs)
    ensures Shaped(t)
  {
    if dgs == [] then s else ServerIn(Deliver(s, dgs[..|dgs| - 1]), dgs[|dgs| - 1])
  }

  function FanOuts(dgs: seq<seq<byte>>, chain: seq<Node>): seq<Delivery>
    requires Usable(dgs)
  {
    if dgs == [] then []
    else FanOuts(dgs[..|dgs| - 1], chain) + FanOut(dgs[|dgs| - 1], chain)
  }

  lemma {:induction false} RowMajor(j: nat, i: nat, n: nat, w: nat)
    requires j < n && i < w
    ensures 0 <= j * w + i < n * w
  {
    assert n * w == (n - 1) * w + w;
    if j < n - 1 {
      RowMajor(j, i, n - 1, w);
    }
  }

  lemma {:induction false} FanOutsLength(dgs: seq<seq<byte>>, chain: seq<Node>)
    requires Usable(dgs)
    ensures |FanOuts(dgs, chain)| == |dgs| * |chain|
  {
    if dgs != [] {
      var n, w := |dgs| - 1, |chain|;
      FanOutsLength(dgs[..n], chain);
      assert (n + 1) * w == n * w + w;
    }
  }

  /** The j-th datagram reaches the i-th client as delivery number j * |chain| + i. */
  lemma {:induction false} FanOutsAt(dgs: seq<seq<byte>>, chain: seq<Node>, j: nat, i: nat)
    requires Usable(dgs) && j < |dgs| && i < |chain|
    ensures |FanOuts(dgs, chain)| == |dgs| * |chain|
    ensures 0 <= j * |chain| + i < |dgs| * |chain|
    ensures FanOuts(dgs, chain)[j * |chain| + i] == Delivery(chain[i].ip, Readdressed(dgs[j], chain[i].reqId))
  {
    var n, at := |dgs| - 1, j * |chain| + i;
    FanOutsLength(dgs, chain);
    FanOutsLength(dgs[..n], chain);
    RowMajor(j, i, |dgs|, |chain|);
    if j < n {
      FanOutsAt(dgs[..n], chain, j, i);
    } else {
      FanOutAt(dgs[n], chain, i);
      assert |FanOuts(dgs[..n], chain)| == n * |chain|;
    }
  }

  /** What the first m datagrams of a value have done. */
  ghost predicate Progress(s: State, t: State, dgs: seq<seq<byte>>, m: nat, sig: Sig)
    requires sig in s.table && Usable(dgs) && m <= |dgs|
  {
    var chain := s.table[sig].chain;
    && t.log.toClients == s.log.toClients + FanOuts(dgs[..m], chain)
    && (0 < m < |dgs| ==> t.keyHold == sig && t.lastKey == sig)
    && t.log.regs == s.log.regs && t.log.made == s.log.made && t.log.born == s.log.born
    && (if m < |dgs| then t.table == s.table[sig := Entry(chain, m + 1)] && t.log.freed == s.log.freed
        else t.table == s.table - {sig} && t.log.freed == s.log.freed + chain)
  }

  lemma OnePart(s: State, t: State, dgs: seq<seq<byte>>, m: nat, id: nat, key: Key)
    requires Shaped(t) && Value(dgs, id, key) && Usable(dgs) && m < |dgs|
    requires Signature(id, key) in s.table && Progress(s, t, dgs, m, Signature(id, key))
    ensures Progress(s, ServerIn(t, dgs[m]), dgs, m + 1, Signature(id, key))
  {
    var sig := Signature(id, key);
    assert Part(dgs, m, id, key);
    assert Looked(t, dgs[m]) == sig;
    CountedFacts(t, dgs[m]);
    assert dgs[..m + 1][..m] == dgs[..m];
  }

  /** MAIN.  A value of d consecutive datagrams, answered under an id and key whose row is present and
      freshly counted, reaches every client of the row's chain d times; the row goes with the d-th
      datagram and not before, and its packets are freed then. */
  lemma {:induction false} ValueIsSteered(s: State, dgs: seq<seq<byte>>, m: nat, id: nat, key: Key)
    requires Shaped(s) && Value(dgs, id, key) && Usable(dgs) && m <= |dgs|
    requires Signature(id, key) in s.table && s.table[Signature(id, key)].count == 1
    ensures Usable(dgs[..m])
    ensures Progress(s, Deliver(s, dgs[..m]), dgs, m, Signature(id, key))
  {
    if m > 0 {
      ValueIsSteered(s, dgs, m - 1, id, key);
      assert dgs[..m][..m - 1] == dgs[..m - 1];
      OnePart(s, Deliver(s, dgs[..m - 1]), dgs, m - 1, id, key);
    } else {
      var e := s.table[Signature(id, key)];
      assert s.table[Signature(id, key) := Entry(e.chain, 1)] == s.table;
    }
  }

  /** MAIN.  End to end: the deliveries of a value are, datagram by datagram, one for each registration made
      under its id and key since the row was created, newest first and as often as it registered, each with
      that registration's own request id and every other byte unchanged. */
  lemma EveryClientIsServed(s: State, dgs: seq<seq<byte>>, id: nat, key: Key, j: nat, i: nat)
    requires Chained(s) && Value(dgs, id, key) && Usable(dgs)
    requires Signature(id, key) in s.table && s.table[Signature(id, key)].count == 1
    requires j < |dgs| && i < |s.table[Signature(id, key)].chain|
    ensures Chain(s, Signature(id, key))
    ensures var t, sig := Deliver(s, dgs), Signature(id, key);
      var clients := Waiting(s.log.regs, Since(s, sig), sig);
      && sig !in t.table && t.table == s.table - {sig}
      && |t.log.toClients| == |s.log.toClients| + |dgs| * |clients|
      && i < |clients|
      && 0 <= j * |clients| + i < |dgs| * |clients|
      && t.log.toClients[|s.log.toClients| + (j * |clients| + i)].ip == clients[i].ip
      && t.log.toClients[|s.log.toClients| + (j * |clients| + i)].bytes == Readdressed(dgs[j], clients[i].reqId)
  {
    assert Chain(s, Signature(id, key));
    ValueIsSteered(s, dgs, |dgs|, id, key);
    assert dgs[..|dgs|] == dgs;
    FanOutsAt(dgs, s.table[Signature(id, key)].chain, j, i);
  }

  // ---- Where the packets go ---------------------------------------------------------------------------------

  /** The reply completes a row, but not the row of `key_hold`: a continuation after `key_hold` moved on. */
  predicate Stray(s: State, dg: seq<byte>)
    requires Shaped(s) && IsDatagram(dg)
  {
    && Fits(dg) && KeyOf(dg).None?
    && s.lastKey in s.table && s.table[s.lastKey].count >= DatagramCountOf(dg)
    && s.keyHold != s.lastKey
  }

  lemma NamedSame(s: State, dg: seq<byte>)
    requires Shaped(s) && IsDatagram(dg) && Conserved(s)
    ensures Conserved(Named(s, dg))
  {
    SamePackets(s, Named(s, dg));
  }

  lemma ServerConserves(s: State, dg: seq<byte>)
    requires Chained(s) && Conserved(s) && IsDatagram(dg) && ReqIdOf(dg) < MAX_REQ_ID
    requires !Stray(s, dg)
    ensures Conserved(ServerIn(s, dg))
  {
    var t, look := ServerIn(s, dg), Looked(s, dg);
    NamedSame(s, dg);
    if Fits(dg) && look in s.table {
      CountedFacts(s, dg);
      if s.table[look].count >= DatagramCountOf(dg) {
        FreeRow(s, t, look);
      } else {
        assert t.table.Keys == s.table.Keys;
        SamePackets(s, t);
      }
    }
  }

  /** A chain freed while its row stays is in two places. */
  lemma StrayBreaks(s: State, dg: seq<byte>)
    requires Chained(s) && Conserved(s) && IsDatagram(dg) && ReqIdOf(dg) < MAX_REQ_ID
    requires Stray(s, dg)
    ensures !Conserved(ServerIn(s, dg))
  {
    var t, look := ServerIn(s, dg), s.lastKey;
    CountedFacts(s, dg);
    ChainMeaning(s, look);
    var x := s.table[look].chain[0];
    assert x in s.table[look].chain;
    assert Awaits(s.log.regs, Since(s, look), look, x);
    assert look in t.table && Owned(t, x.serial);
    assert t.log.freed[|s.log.freed|] == x;
    assert !Settled(t, x.serial);
  }

  /** MAIN.  Handling a reply keeps every client packet in exactly one place if and only if the reply is not
      a stray completion: a continuation that completes the row of `last_key` while `key_hold` names another. */
  lemma ConservedIffNotStray(s: State, dg: seq<byte>)
    requires Chained(s) && Conserved(s) && IsDatagram(dg) && ReqIdOf(dg) < MAX_REQ_ID
    ensures Conserved(ServerIn(s, dg)) <==> !Stray(s, dg)
  {
    if Stray(s, dg) {
      StrayBreaks(s, dg);
    } else {
      ServerConserves(s, dg);
    }
  }
}
