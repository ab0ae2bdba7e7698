/** middlebox/src/api.c on its own data: rows and arrays filled in place, chains of packet buffers linked
    through `next`, loops, and fields.  Every method is proved to do to the abstract state exactly what the
    function of the same name in Protocol.dfy says, so everything proved there over runs holds of it. */
module Middleboxes {
  import opened Bytes
  import opened Text
  import opened Wire
  import opened Protocol
  import opened Batching
  import opened Chains
  import opened Steering
  import opened Runs
  import opened Lifetime
  import opened Copies

  /** A client packet, linked into the chain of a row.  `serial` is the number of its registration. */
  class Mbuf {
    const ip: nat
    const dg: seq<byte>
    ghost const serial: nat
    var next: Mbuf?

    constructor (ip: nat, dg: seq<byte>, ghost serial: nat)
      ensures this.ip == ip && this.dg == dg && this.serial == serial && next == null
    {
      this.ip, this.dg, this.serial, next := ip, dg, serial, null;
    }
  }

  /** A reply of the server, with its reference count. */
  class Packet {
    const dg: seq<byte>
    var refs: nat

    constructor (dg: seq<byte>)
      ensures this.dg == dg && refs == 1
    {
      this.dg, refs := dg, 1;
    }

    /** `rte_mbuf_refcnt_update(pkt_buf, 1)`, of a buffer not yet given back. */
    method Hold()
      requires refs > 0
      modifies this`refs
      ensures refs == old(refs) + 1
    {
      refs := refs + 1;
    }

    /** `rte_pktmbuf_free(pkt_buf)`, here or in the driver once the frame is out. */
    method Drop()
      requires refs > 0
      modifies this`refs
      ensures refs == old(refs) - 1
    {
      refs := refs - 1;
    }
  }

  /** A row of `client_pkts`: the head of its chain, and its cell of `pkt_counts`. */
  datatype Slot = Slot(head: Mbuf, count: nat)

  // ---- Buffers and what they stand for ------------------------------------------------------------------

  ghost predicate StandsFor(b: Mbuf, x: Node) {
    IsDatagram(b.dg) && x == Node(b.serial, b.ip, ReqIdOf(b.dg))
  }

  /** Buffers and nodes, one by one. */
  ghost predicate Spell(bufs: seq<Mbuf>, nodes: seq<Node>) {
    && |bufs| == |nodes|
    && forall i {:trigger StandsFor(bufs[i], nodes[i])} :: 0 <= i < |bufs| ==> StandsFor(bufs[i], nodes[i])
  }

  /** The i-th buffer of a chain leads to the next one. */
  ghost predicate LeadsOn(bufs: seq<Mbuf>, i: nat)
    requires i < |bufs|
    reads bufs[i]
  {
    bufs[i].next == if i + 1 < |bufs| then bufs[i + 1] else null
  }

  ghost predicate Linked(bufs: seq<Mbuf>)
    reads bufs
  {
    forall i {:trigger LeadsOn(bufs, i)} :: 0 <= i < |bufs| ==> LeadsOn(bufs, i)
  }

  ghost predicate Represents(slot: Slot, bufs: seq<Mbuf>, entry: Entry)
    reads bufs
  {
    && bufs != [] && bufs[0] == slot.head && slot.count == entry.count
    && Linked(bufs) && Spell(bufs, entry.chain)
  }

  ghost predicate Within(bufs: seq<Mbuf>, pool: set<Mbuf>) {
    forall i {:trigger bufs[i] in pool} :: 0 <= i < |bufs| ==> bufs[i] in pool
  }

  /** A row of the table, its buffers, and its meaning agree. */
  ghost predicate Holds(pkts: map<Sig, Slot>, rows: map<Sig, seq<Mbuf>>, table: map<Sig, Entry>, pool: set<Mbuf>,
                        sig: Sig)
    reads pool
  {
    && sig in pkts && sig in rows && sig in table
    && Within(rows[sig], pool)
    && Represents(pkts[sig], rows[sig], table[sig])
  }

  ghost predicate HoldsAll(pkts: map<Sig, Slot>, rows: map<Sig, seq<Mbuf>>, table: map<Sig, Entry>, pool: set<Mbuf>)
    reads pool
  {
    && pkts.Keys == table.Keys
    && forall sig {:trigger Holds(pkts, rows, table, pool, sig)} ::
         sig in pkts ==> Holds(pkts, rows, table, pool, sig)
  }

  /** What has been released, in order, all of it once in a chain. */
  ghost predicate Gone(released: seq<Mbuf>, freed: seq<Node>, pool: set<Mbuf>) {
    Spell(released, freed) && Within(released, pool)
  }

  /** The buffer is that of its registration. */
  ghost predicate Listed(b: Mbuf, regs: seq<Reg>) {
    b.serial < |regs| && StandsFor(b, regs[b.serial].node)
  }

  ghost predicate SameBuffer(b: Mbuf, c: Mbuf) {
    b.serial == c.serial ==> b == c
  }

  /** Every buffer is that of a registration, and no two are of the same. */
  ghost predicate Catalogued(pool: set<Mbuf>, regs: seq<Reg>) {
    && (forall b {:trigger Listed(b, regs)} :: b in pool ==> Listed(b, regs))
    && (forall b, c {:trigger SameBuffer(b, c)} :: b in pool && c in pool ==> SameBuffer(b, c))
  }

  ghost predicate Unalike(bufs: seq<Mbuf>, i: nat, j: nat)
    requires i < |bufs| && j < |bufs|
  {
    bufs[i] != bufs[j]
  }

  ghost predicate AllUnalike(bufs: seq<Mbuf>) {
    forall i, j {:trigger Unalike(bufs, i, j)} :: 0 <= i < j < |bufs| ==> Unalike(bufs, i, j)
  }

  lemma SpellBoth(bs: seq<Mbuf>, xs: seq<Node>, cs: seq<Mbuf>, ys: seq<Node>)
    requires Spell(bs, xs) && Spell(cs, ys)
    ensures Spell(bs + cs, xs + ys)
  {}

  /** Different nodes are spelt by different buffers. */
  lemma UnalikeAsSpelt(bufs: seq<Mbuf>, nodes: seq<Node>)
    requires Spell(bufs, nodes) && NoRepeat(nodes)
    ensures AllUnalike(bufs)
  {
    forall i, j | 0 <= i < j < |bufs|
      ensures Unalike(bufs, i, j)
    {
      assert Differ(nodes, i, j) && StandsFor(bufs[i], nodes[i]) && StandsFor(bufs[j], nodes[j]);
    }
  }

  /** A chain whose row is in a conserved state has not been released, not even in part. */
  lemma ChainIntact(s: State, released: seq<Mbuf>, bufs: seq<Mbuf>, sig: Sig)
    requires Chained(s) && Conserved(s) && sig in s.table
    requires Spell(released, s.log.freed) && Spell(bufs, s.table[sig].chain)
    ensures AllUnalike(released + bufs)
  {
    FreedApart(s, sig);
    SpellBoth(released, s.log.freed, bufs, s.table[sig].chain);
    UnalikeAsSpelt(released + bufs, s.log.freed + s.table[sig].chain);
  }

  /** Removing a row leaves the others as they are. */
  lemma FewerRows(pkts: map<Sig, Slot>, rows: map<Sig, seq<Mbuf>>, table: map<Sig, Entry>,
                  pool: set<Mbuf>, gone: set<Sig>)
    requires HoldsAll(pkts, rows, table, pool)
    ensures HoldsAll(pkts - gone, rows, table - gone, pool)
  {
    forall sig | sig in pkts - gone
      ensures Holds(pkts - gone, rows, table - gone, pool, sig)
    {
      assert Holds(pkts, rows, table, pool, sig);
    }
  }

  /** Counting a datagram in a row leaves the others as they are. */
  lemma RowCounted(pkts: map<Sig, Slot>, rows: map<Sig, seq<Mbuf>>, table: map<Sig, Entry>,
                   pool: set<Mbuf>, look: Sig)
    requires HoldsAll(pkts, rows, table, pool) && look in pkts
    ensures HoldsAll(pkts[look := pkts[look].(count := pkts[look].count + 1)], rows,
                     table[look := table[look].(count := table[look].count + 1)], pool)
  {
    var pkts' := pkts[look := pkts[look].(count := pkts[look].count + 1)];
    var table' := table[look := table[look].(count := table[look].count + 1)];
    forall sig | sig in pkts'
      ensures Holds(pkts', rows, table', pool, sig)
    {
      assert Holds(pkts, rows, table, pool, sig);
    }
  }

  /** A row with a new first buffer, beside the others. */
  lemma RowAdded(pkts: map<Sig, Slot>, rows: map<Sig, seq<Mbuf>>, table: map<Sig, Entry>,
                 pool: set<Mbuf>, sig: Sig, bufs: seq<Mbuf>, entry: Entry)
    requires HoldsAll(pkts, rows, table, pool) && bufs != [] && Within(bufs[1..], pool)
    requires Represents(Slot(bufs[0], 1), bufs, entry)
    ensures HoldsAll(pkts[sig := Slot(bufs[0], 1)], rows[sig := bufs], table[sig := entry], pool + {bufs[0]})
  {
    var pkts', rows', table', pool' := pkts[sig := Slot(bufs[0], 1)], rows[sig := bufs], table[sig := entry],
      pool + {bufs[0]};
    forall x | x in pkts'
      ensures Holds(pkts', rows', table', pool', x)
    {
      if x != sig { assert Holds(pkts, rows, table, pool, x); } else { WithinOne(bufs, pool); }
    }
  }

  lemma WithinOne(bufs: seq<Mbuf>, pool: set<Mbuf>)
    requires bufs != [] && Within(bufs[1..], pool)
    ensures Within(bufs, pool + {bufs[0]})
  {
    forall i | 0 <= i < |bufs|
      ensures bufs[i] in pool + {bufs[0]}
    {
      if i > 0 { assert bufs[i] == bufs[1..][i - 1]; }
    }
  }

  lemma CatalogueGrows(pool: set<Mbuf>, regs: seq<Reg>, curr: Mbuf, r: Reg)
    requires Catalogued(pool, regs) && curr.serial == |regs| && StandsFor(curr, r.node)
    ensures Catalogued(pool + {curr}, regs + [r])
  {
    forall b | b in pool + {curr}
      ensures Listed(b, regs + [r])
    {
      if b in pool { assert Listed(b, regs); }
    }
    forall b, c | b in pool + {curr} && c in pool + {curr}
      ensures SameBuffer(b, c)
    {
      if b in pool { assert Listed(b, regs); }
      if c in pool { assert Listed(c, regs); }
      if b in pool && c in pool { assert SameBuffer(b, c); }
    }
  }

  /** `curr_buf->next = first_buf`. */
  method PushOnto(curr: Mbuf, head: Mbuf, ghost behind: seq<Mbuf>)
    requires behind != [] && head == behind[0] && Linked(behind) && curr !in behind
    modifies curr
    ensures Linked([curr] + behind)
  {
    curr.next := head;
    ghost var bufs := [curr] + behind;
    forall i | 0 <= i < |bufs|
      ensures LeadsOn(bufs, i)
    {
      if i > 0 { assert old(LeadsOn(behind, i - 1)); }
    }
  }

  /** The static variables of api.c, and what has left it. */
  class Middlebox {
    const ukey: array<Key>
    var ukeyLen: nat
    var totalUkeySize: nat
    var requestId: nat
    var outstandingReq: nat
    const keysSent: array<nat>
    const keysRcvd: array<int>
    var keyHold: Sig
    var lastKey: Sig
    var clientPkts: map<Sig, Slot>
    var lastSeqId: nat
    var lastSendClock: int
    const lruQueue: array<Sig>
    var lruPtr: nat
    const clock: nat -> int
    var ticks: nat

    var toServer: seq<seq<byte>>            // datagrams handed to the IP layer for the server
    var toClients: seq<Delivery>            // datagrams handed to the IP layer for clients
    var released: seq<Mbuf>                 // client packets given back to their pool

    ghost var model: State                  // what all of this means
    ghost var rows: map<Sig, seq<Mbuf>>     // the buffers of each chain, from the head
    ghost var pool: set<Mbuf>               // every buffer ever put into a chain

    ghost predicate Layout()
      reads this
    {
      && ukey.Length == MAP_ENTRIES && ukeyLen <= MAP_ENTRIES
      && keysSent.Length == MAX_REQ_ID && keysRcvd.Length == MAX_REQ_ID && requestId < MAX_REQ_ID
      && lruQueue.Length == MAP_ENTRIES && lruPtr < MAP_ENTRIES
      && outstandingReq < WORD16
      && (keysSent as object) != keysRcvd && (keysSent as object) != ukey && (keysSent as object) != lruQueue
      && (keysRcvd as object) != ukey && (keysRcvd as object) != lruQueue && ukey as object != lruQueue
    }

    /** The fields and arrays spell out the model. */
    ghost predicate Matches()
      requires Layout()
      reads this, ukey, keysSent, keysRcvd, lruQueue
    {
      && model.pending == ukey[..ukeyLen] && model.total == totalUkeySize
      && model.outstanding == outstandingReq
      && model.keysSent == keysSent[..] && model.keysRcvd == keysRcvd[..]
      && model.log.toServer == toServer
      && MatchesRest()
    }

    /** Everything registering a key leaves alone. */
    ghost predicate MatchesBatch()
      requires Layout()
      reads this, ukey, keysSent, keysRcvd
    {
      && model.pending == ukey[..ukeyLen] && model.total == totalUkeySize
      && model.reqId == requestId && model.outstanding == outstandingReq
      && model.keysSent == keysSent[..] && model.keysRcvd == keysRcvd[..]
      && model.lastKey == lastKey && model.lastSeq == lastSeqId && model.lastSend == lastSendClock
      && model.clock == clock && model.ticks == ticks
      && model.log.toServer == toServer && model.log.toClients == toClients
    }

    /** Everything sending a batch leaves alone, and the current id. */
    ghost predicate MatchesRest()
      requires Layout()
      reads this, lruQueue
    {
      && model.reqId == requestId
      && model.ring == lruQueue[..] && model.ringPtr == lruPtr
      && model.keyHold == keyHold && model.lastKey == lastKey
      && model.lastSeq == lastSeqId && model.lastSend == lastSendClock
      && model.clock == clock && model.ticks == ticks
      && model.log.toClients == toClients
    }

    ghost predicate Repr()
      reads this, ukey, keysSent, keysRcvd, lruQueue, pool
    {
      && Layout() && Matches()
      && HoldsAll(clientPkts, rows, model.table, pool)
      && Gone(released, model.log.freed, pool) && Catalogued(pool, model.log.regs)
    }

    ghost predicate Valid()
      reads this, ukey, keysSent, keysRcvd, lruQueue, pool
    {
      Repr() && Good(model) && Conserved(model) && Lasting(model)
    }

    constructor (clock: nat -> int)
      ensures Valid() && pool == {} && model == Initial(clock)
      ensures fresh(ukey) && fresh(keysSent) && fresh(keysRcvd) && fresh(lruQueue)
    {
      ukey := new Key[MAP_ENTRIES](_ => []);
      keysSent := new nat[MAX_REQ_ID](_ => 0);
      keysRcvd := new int[MAX_REQ_ID](_ => 0);
      lruQueue := new Sig[MAP_ENTRIES](_ => []);
      ukeyLen, totalUkeySize, requestId, outstandingReq := 0, 0, 0, 0;
      keyHold, lastKey, clientPkts, lastSeqId, lastSendClock, lruPtr, ticks := [], [], map[], 0, 0, 0, 0;
      this.clock := clock;
      toServer, toClients, released := [], [], [];
      model, rows, pool := Initial(clock), map[], {};
      new;
      assert keysSent[..] == model.keysSent;
      assert keysRcvd[..] == model.keysRcvd;
      assert lruQueue[..] == model.ring;
      InitialIsGood(clock);
    }

    // ---- Sending ---------------------------------------------------------------------------------------

    method ReadClock() returns (t: int)
      modifies this`ticks
      ensures t == clock(old(ticks)) && ticks == old(ticks) + 1
    {
      t := clock(ticks);
      ticks := ticks + 1;
    }

    /** `app_send` to the server, down to the length check of `udp_send`. */
    method AppSend(payload: seq<byte>)
      requires requestId < WORD16
      modifies this`toServer
      ensures toServer == old(toServer) + Accepted(requestId, payload)
      ensures toServer == old(toServer) + if |payload| <= 1462 then [Framed(requestId, payload)] else []
    {
      if |payload| > MAX_PAYLOAD_LEN {
        return;
      }
      var dg := BigEndian16(requestId) + HEADER;
      dg := dg + payload;
      dg := dg + TAIL;
      if |dg| > UDP_MAX_LEN {
        return;
      }
      toServer := toServer + [dg];
    }

    /** The keys that travel leave `ukey`, and their number goes into `keys_sent`. */
    method TakeBatch(full: bool) returns (payload: seq<byte>)
      requires Layout() && Matches() && Shaped(model) && ukeyLen > 0
      modifies this`ukeyLen, this`totalUkeySize, ukey, keysSent
      ensures Layout()
      ensures payload == Message(Travelling(model, full))
      ensures ukey[..ukeyLen] == Kept(model, full) && totalUkeySize == TotalSize(Kept(model, full))
      ensures keysSent[..] == model.keysSent[model.reqId := |Travelling(model, full)|]
    {
      if full {
        payload := ConstructKeysPacket(ukey, ukeyLen - 1);
        assert Travelling(model, true) == ukey[..ukeyLen - 1];
        keysSent[requestId] := ukeyLen - 1;
        ukey[0] := ukey[ukeyLen - 1];
        ukeyLen := 1;
        totalUkeySize := |ukey[0]|;
        assert ukey[..1] == [ukey[0]];
        OneKeySize(ukey[0]);
      } else {
        payload := ConstructKeysPacket(ukey, ukeyLen);
        keysSent[requestId] := ukeyLen;
        ukeyLen := 0;
        totalUkeySize := 0;
      }
    }

    /** `construct_pkt_and_send_to_server`. */
    method ConstructPktAndSendToServer(full: bool)
      requires Repr() && Shaped(model)
      modifies this`ukeyLen, this`totalUkeySize, this`outstandingReq, this`requestId, this`lastSendClock,
               this`ticks, this`toServer, this`model, ukey, keysSent, keysRcvd
      ensures Repr() && model == SendBatch(old(model), full)
    {
      if ukeyLen > 0 {
        SendKeys(full);
      }
    }

    method SendKeys(full: bool)
      requires Layout() && Matches() && Shaped(model) && ukeyLen > 0
      modifies this`ukeyLen, this`totalUkeySize, this`outstandingReq, this`requestId, this`lastSendClock,
               this`ticks, this`toServer, this`model, ukey, keysSent, keysRcvd
      ensures Layout() && Matches() && model == SendBatch(old(model), full)
    {
      var payload := TakeBatch(full);
      outstandingReq := (outstandingReq + 1) % WORD16;
      keysRcvd[requestId] := 0;
      AppSend(payload);
      Dispatch(full);
    }

    /** The rest of it, once the counters are right and the datagram is out: the next id and the clock. */
    method Dispatch(full: bool)
      requires Layout() && MatchesRest() && Shaped(model) && model.pending != []
      requires toServer == model.log.toServer + Accepted(model.reqId, Message(Travelling(model, full)))
      requires ukey[..ukeyLen] == Kept(model, full) && totalUkeySize == TotalSize(Kept(model, full))
      requires keysSent[..] == model.keysSent[model.reqId := |Travelling(model, full)|]
      requires keysRcvd[..] == model.keysRcvd[model.reqId := 0]
      requires outstandingReq == (model.outstanding + 1) % WORD16
      modifies this`requestId, this`lastSendClock, this`ticks, this`model
      ensures Layout() && Matches() && model == SendBatch(old(model), full)
    {
      requestId := (requestId + 1) % MAX_REQ_ID;
      lastSendClock := clock(ticks);
      ticks := ticks + 1;
      model := SendBatch(model, full);
    }

    // ---- The timer ----------------------------------------------------------------------------------------

    /** `refresh_backlog`. */
    method RefreshBacklog()
      requires Valid()
      modifies this`ukeyLen, this`totalUkeySize, this`outstandingReq, this`requestId, this`lastSendClock,
               this`ticks, this`toServer, this`model, ukey, keysSent, keysRcvd
      ensures Valid() && model == Refresh(old(model))
    {
      TidyStep(model, Timer);
      EnsureStarted();
      if ukeyLen == 0 {
        return;
      }
      FlushIfLate();
    }

    /** `if (last_send_clock == 0) last_send_clock = clock()`. */
    method EnsureStarted()
      requires Repr() && Shaped(model)
      modifies this`lastSendClock, this`ticks, this`model
      ensures Repr() && model == StartClock(old(model))
    {
      model := StartClock(model);
      if lastSendClock == 0 {
        lastSendClock := ReadClock();
      }
    }

    method FlushIfLate()
      requires Repr() && Shaped(model)
      modifies this`ukeyLen, this`totalUkeySize, this`outstandingReq, this`requestId, this`lastSendClock,
               this`ticks, this`toServer, this`model, ukey, keysSent, keysRcvd
      ensures Repr() && model == CheckTimeout(old(model))
    {
      ghost var s := model;
      var now := ReadClock();
      model := Ticked(model);
      if now - lastSendClock >= TIMEOUT * CLOCKS_PER_MS {
        Forgive();
        ConstructPktAndSendToServer(false);
      }
    }

    /** Every request is taken for answered. */
    method Forgive()
      requires Repr() && Shaped(model)
      modifies this`outstandingReq, this`model, keysRcvd
      ensures Repr() && model == Forgiven(old(model))
    {
      outstandingReq := 0;
      for i := 0 to MAX_REQ_ID
        invariant outstandingReq == 0 && model == old(model)
        invariant forall j :: 0 <= j < i ==> keysRcvd[j] == -1
      {
        keysRcvd[i] := -1;
      }
      model := Forgiven(model);
      assert keysRcvd[..] == model.keysRcvd;
    }

    // ---- Requests -------------------------------------------------------------------------------------------

    /** The row of `ukey` that holds the key, or the number of rows. */
    method FindKey(key: Key) returns (i: nat)
      requires Layout()
      ensures i <= ukeyLen && key !in ukey[..i] && (i < ukeyLen ==> ukey[i] == key)
    {
      i := 0;
      while i < ukeyLen && ukey[i] != key
        invariant i <= ukeyLen && key !in ukey[..i]
      {
        i := i + 1;
      }
    }

    /** A new key takes the next row. */
    method AddKey(key: Key, ghost t: State)
      requires Repr() && ukeyLen < MAP_ENTRIES && key !in model.pending && t == InsertKey(model, key)
      modifies this`ukeyLen, this`totalUkeySize, this`model, ukey
      ensures Repr() && model == t
    {
      ukey[ukeyLen] := key;
      ukeyLen := ukeyLen + 1;
      totalUkeySize := totalUkeySize + |key|;
      assert ukey[..ukeyLen] == model.pending + [key];
      model := t;
    }

    /** `insert_ukey_group`. */
    method InsertUkeyGroup(key: Key)
      requires Repr() && Batched(model) && ValidKey(key)
      modifies this`ukeyLen, this`totalUkeySize, this`model, ukey
      ensures Repr() && model == InsertKey(old(model), key)
    {
      RowsSuffice(model, key);
      var i := FindKey(key);
      if i == ukeyLen {
        AddKey(key, InsertKey(model, key));
      } else {
        assert model.pending[i] == key;
      }
    }

    /** `rte_pktmbuf_free_seg`: no buffer is given back twice. */
    method FreeSegment(m: Mbuf)
      requires m !in released
      modifies this`released
      ensures released == old(released) + [m]
    {
      released := released + [m];
    }

    /** `rte_pktmbuf_free` of the head of a chain: the walk along `next` gives back all of it. */
    method FreeChain(head: Mbuf, ghost bufs: seq<Mbuf>)
      requires bufs != [] && head == bufs[0] && Linked(bufs) && AllUnalike(released + bufs)
      modifies this`released
      ensures released == old(released) + bufs
    {
      ghost var before, i := released, 0;
      var ptr: Mbuf? := head;
      while ptr != null
        invariant i <= |bufs| && ptr == (if i < |bufs| then bufs[i] else null)
        invariant released == before + bufs[..i]
        decreases |bufs| - i
      {
        assert LeadsOn(bufs, i);
        NotYetFreed(before, bufs, i);
        var next := ptr.next;
        FreeSegment(ptr);
        ptr := next;
        i := i + 1;
      }
    }

    /** The ring slot about to be reused gives up its row. */
    method Evict()
      requires Layout() && Shaped(model) && Chained(model) && Conserved(model)
      requires model.ring == lruQueue[..] && model.ringPtr == lruPtr
      requires HoldsAll(clientPkts, rows, model.table, pool) && Gone(released, model.log.freed, pool)
      modifies this`clientPkts, this`released
      ensures HoldsAll(clientPkts, rows, Evicted(model), pool)
      ensures Gone(released, model.log.freed + Victims(model), pool)
    {
      var victim := lruQueue[lruPtr];
      FewerRows(clientPkts, rows, model.table, pool, {victim});
      if victim in clientPkts {
        assert Holds(clientPkts, rows, model.table, pool, victim);
        ChainIntact(model, released, rows[victim], victim);
        var slot := clientPkts[victim];
        clientPkts := clientPkts - {victim};
        FreeChain(slot.head, rows[victim]);
      } else {
        assert clientPkts - {victim} == clientPkts;
      }
    }

    /** The next registration, made with a buffer that is in no chain yet. */
    ghost predicate NextUp(curr: Mbuf, regs: seq<Reg>)
      reads this`pool, curr
    {
      curr !in pool && curr.next == null && curr.serial == |regs| && IsDatagram(curr.dg)
    }

    /** `curr_buf->next = first_buf` when the key was found.  No row is touched yet. */
    method Precede(curr: Mbuf, ghost behind: seq<Mbuf>, ghost table: map<Sig, Entry>)
      requires HoldsAll(clientPkts, rows, table, pool) && curr !in pool && curr.next == null
      requires if keyHold in table then keyHold in rows && behind == rows[keyHold] else behind == []
      modifies curr
      ensures Linked([curr] + behind) && HoldsAll(clientPkts, rows, table, pool)
    {
      if keyHold in clientPkts {
        assert Holds(clientPkts, rows, table, pool, keyHold);
        PushOnto(curr, clientPkts[keyHold].head, behind);
      } else {
        assert LeadsOn([curr], 0);
      }
    }

    /** A buffer joins the chain of the row of `key_hold`, or starts that row. */
    method Link(curr: Mbuf, ghost node: Node, ghost table: map<Sig, Entry>, ghost chain: seq<Node>)
      requires HoldsAll(clientPkts, rows, table, pool) && curr !in pool && curr.next == null && StandsFor(curr, node)
      requires chain == if keyHold in table then table[keyHold].chain else []
      modifies this`clientPkts, this`rows, this`pool, curr
      ensures HoldsAll(clientPkts, rows, table[keyHold := Entry([node] + chain, 1)], pool)
      ensures pool == old(pool) + {curr}
    {
      assert keyHold in table ==> Holds(clientPkts, rows, table, pool, keyHold);
      ghost var behind := if keyHold in table then rows[keyHold] else [];
      Precede(curr, behind, table);
      SpellBoth([curr], [node], behind, chain);
      RowAdded(clientPkts, rows, table, pool, keyHold, [curr] + behind, Entry([node] + chain, 1));
      clientPkts := clientPkts[keyHold := Slot(curr, 1)];
      rows := rows[keyHold := [curr] + behind];
      pool := pool + {curr};
    }

    /** The middle of a registration: `key_hold` already names the row. */
    ghost predicate Registering(curr: Mbuf)
      reads this, ukey, keysSent, keysRcvd, lruQueue, pool, curr
    {
      && Layout() && MatchesBatch() && Shaped(model)
      && model.ring == lruQueue[..] && model.ringPtr == lruPtr
      && HoldsAll(clientPkts, rows, model.table, pool)
      && Gone(released, model.log.freed, pool) && Catalogued(pool, model.log.regs)
      && NextUp(curr, model.log.regs)
    }

    /** The key is found: its chain grows. */
    method JoinRow(curr: Mbuf, key: Key, ghost t: State)
      requires Registering(curr) && keyHold == Signature(model.reqId, key) && keyHold in model.table
      requires t == Register(model, curr.ip, ReqIdOf(curr.dg), key)
      modifies this`clientPkts, this`rows, this`pool, this`model, curr
      ensures Repr() && model == t && pool == old(pool) + {curr}
    {
      ghost var node := Node(|model.log.regs|, curr.ip, ReqIdOf(curr.dg));
      Link(curr, node, model.table, model.table[keyHold].chain);
      CatalogueGrows(old(pool), model.log.regs, curr, Reg(Epoch(model), key, node));
      model := t;
    }

    /** The oldest slot of the ring, and the row it still names, are given up for the row of `key_hold`. */
    method ClaimSlot(curr: Mbuf)
      requires Registering(curr) && Chained(model) && Conserved(model)
      modifies this`clientPkts, this`released, this`lruPtr, lruQueue
      ensures Claimed(curr)
    {
      Evict();
      lruQueue[lruPtr] := keyHold;
      lruPtr := (lruPtr + 1) % MAP_ENTRIES;
    }

    /** The old row is gone and the new one not yet there. */
    ghost predicate Claimed(curr: Mbuf)
      reads this, ukey, keysSent, keysRcvd, lruQueue, pool, curr
    {
      && Layout() && MatchesBatch() && Shaped(model)
      && lruQueue[..] == model.ring[model.ringPtr := keyHold] && lruPtr == (model.ringPtr + 1) % MAP_ENTRIES
      && HoldsAll(clientPkts, rows, Evicted(model), pool)
      && Gone(released, model.log.freed + Victims(model), pool) && Catalogued(pool, model.log.regs)
      && NextUp(curr, model.log.regs)
    }

    /** The key is new: a row of its own. */
    method StartRow(curr: Mbuf, key: Key, ghost t: State)
      requires Claimed(curr) && keyHold == Signature(model.reqId, key) && keyHold !in model.table
      requires t == Register(model, curr.ip, ReqIdOf(curr.dg), key)
      modifies this`clientPkts, this`rows, this`pool, this`model, curr
      ensures Repr() && model == t && pool == old(pool) + {curr}
    {
      ghost var node := Node(|model.log.regs|, curr.ip, ReqIdOf(curr.dg));
      Link(curr, node, Evicted(model), []);
      assert [node] + [] == [node];
      CatalogueGrows(old(pool), model.log.regs, curr, Reg(Epoch(model), key, node));
      model := t;
    }

    method EnterRow(curr: Mbuf, key: Key, ghost t: State)
      requires Registering(curr) && Chained(model) && Conserved(model) && keyHold == Signature(model.reqId, key)
      requires t == Register(model, curr.ip, ReqIdOf(curr.dg), key)
      modifies this`clientPkts, this`rows, this`pool, this`lruPtr, this`released, this`model, lruQueue, curr
      ensures Repr() && model == t && pool == old(pool) + {curr}
    {
      if keyHold in clientPkts {
        JoinRow(curr, key, t);
      } else {
        ClaimSlot(curr);
        StartRow(curr, key, t);
      }
    }

    /** The loop body of `app_client_in` from the signature to `pkt_counts`. */
    method RegisterKey(curr: Mbuf, key: Key, ghost t: State)
      requires Repr() && Chained(model) && Conserved(model) && NextUp(curr, model.log.regs)
      requires t == Register(model, curr.ip, ReqIdOf(curr.dg), key)
      modifies this`keyHold, this`clientPkts, this`rows, this`pool, this`lruPtr, this`released, this`model,
               lruQueue, curr
      ensures Repr() && model == t && pool == old(pool) + {curr}
    {
      keyHold := Signature(requestId, key);
      EnterRow(curr, key, t);
    }

    /** The key joins the pending ones and is registered. */
    method EnrolKey(curr: Mbuf, key: Key, ghost r: State)
      requires Repr() && Sane(model) && Conserved(model) && ValidKey(key) && NextUp(curr, model.log.regs)
      requires r == Register(InsertKey(model, key), curr.ip, ReqIdOf(curr.dg), key)
      modifies this`ukeyLen, this`totalUkeySize, this`released, this`keyHold, this`clientPkts, this`rows, this`pool,
               this`lruPtr, this`model, ukey, lruQueue, curr
      ensures Repr() && model == r && pool == old(pool) + {curr}
    {
      InsertKeeps(model, InsertKey(model, key), key);
      InsertUkeyGroup(key);
      RegisterKey(curr, key, r);
    }

    /** `if (total_ukey_size >= MAX_PAYLOAD_LEN - GETS_LEN - ukey_len + 1) construct_pkt_and_send_to_server(true)`. */
    method FlushIfFull()
      requires Repr() && Shaped(model)
      modifies this`ukeyLen, this`totalUkeySize, this`outstandingReq, this`requestId, this`lastSendClock,
               this`ticks, this`toServer, this`model, ukey, keysSent, keysRcvd
      ensures Repr() && model == if Overfull(old(model)) then SendBatch(old(model), true) else old(model)
    {
      if totalUkeySize >= MAX_PAYLOAD_LEN - |GETS| - ukeyLen + 1 {
        ConstructPktAndSendToServer(true);
      }
    }

    /** One round of the loop of `app_client_in`. */
    method TakeOneKey(curr: Mbuf, key: Key)
      requires Repr() && Sane(model) && Conserved(model) && ValidKey(key) && NextUp(curr, model.log.regs)
      modifies this`ukeyLen, this`totalUkeySize, this`outstandingReq, this`requestId, this`lastSendClock, this`ticks,
               this`toServer, this`released, this`keyHold, this`clientPkts, this`rows, this`pool, this`lruPtr,
               this`model, ukey, keysSent, keysRcvd, lruQueue, curr
      ensures Repr() && model == TakeKey(old(model), curr.ip, ReqIdOf(curr.dg), key)
      ensures pool == old(pool) + {curr}
    {
      EnrolKey(curr, key, Register(InsertKey(model, key), curr.ip, ReqIdOf(curr.dg), key));
      FlushIfFull();
    }

    /** `rte_pktmbuf_copy`, of a packet not given back. */
    method CopyPacket(pkt: Mbuf) returns (copy: Mbuf)
      requires pkt !in released
      ensures fresh(copy) && copy.next == null && copy.serial == |model.log.regs|
      ensures copy.ip == pkt.ip && copy.dg == pkt.dg
    {
      copy := new Mbuf(pkt.ip, pkt.dg, |model.log.regs|);
    }

    /** The first key is registered with the packet itself, every other one with a copy. */
    method TakeNextKey(pkt: Mbuf, key: Key, first: bool)
      requires Repr() && Sane(model) && Conserved(model) && ValidKey(key) && IsDatagram(pkt.dg)
      requires if first then NextUp(pkt, model.log.regs) else pkt !in released
      modifies this`ukeyLen, this`totalUkeySize, this`outstandingReq, this`requestId, this`lastSendClock, this`ticks,
               this`toServer, this`released, this`keyHold, this`clientPkts, this`rows, this`pool, this`lruPtr,
               this`model, ukey, keysSent, keysRcvd, lruQueue, pkt
      ensures Repr() && model == TakeKey(old(model), pkt.ip, ReqIdOf(pkt.dg), key)
    {
      var curr := pkt;
      if !first {
        curr := CopyPacket(pkt);
      }
      TakeOneKey(curr, key);
    }

    /** The loop of `app_client_in`.  Every key but the first is registered with a copy of the packet. */
    method TakeAllKeys(pkt: Mbuf, keys: seq<Key>)
      requires Repr() && Sane(model) && Conserved(model) && ValidKeys(keys) && NextUp(pkt, model.log.regs)
      requires AlwaysOurs(model, pkt.ip, ReqIdOf(pkt.dg), keys)
      modifies this`ukeyLen, this`totalUkeySize, this`outstandingReq, this`requestId, this`lastSendClock, this`ticks,
               this`toServer, this`released, this`keyHold, this`clientPkts, this`rows, this`pool, this`lruPtr,
               this`model, ukey, keysSent, keysRcvd, lruQueue, pkt
      ensures Repr() && model == TakeKeys(old(model), pkt.ip, ReqIdOf(pkt.dg), keys)
    {
      ghost var s, id := model, ReqIdOf(pkt.dg);
      for i := 0 to |keys|
        invariant Repr() && model == TakeKeys(s, pkt.ip, id, keys[..i])
        invariant i == 0 ==> pool == old(pool) && pkt.next == null
      {
        SaneTakeKeys(s, pkt.ip, id, keys[..i]);
        TakeKeysConserves(s, pkt.ip, id, keys[..i]);
        NextTaken(s, model, pkt.ip, id, keys, i);
        if i > 0 {
          assert StillOurs(s, pkt.ip, id, keys, i);
          NotGivenBack(released, model.log.freed, pkt, FirstNode(s, pkt.ip, id));
        }
        TakeNextKey(pkt, keys[i], i == 0);
      }
      assert keys[..|keys|] == keys;
    }

    /** `if (outstanding_req < MIN_OUTSTANDING_REQ) construct_pkt_and_send_to_server(false)`. */
    method SendIfRoom()
      requires Repr() && Shaped(model)
      modifies this`ukeyLen, this`totalUkeySize, this`outstandingReq, this`requestId, this`lastSendClock,
               this`ticks, this`toServer, this`model, ukey, keysSent, keysRcvd
      ensures Repr() && model == SendIfIdle(old(model))
    {
      if outstandingReq < MIN_OUTSTANDING_REQ {
        ConstructPktAndSendToServer(false);
      }
    }

    /** A request of acceptable length. */
    method TakeRequest(pkt: Mbuf)
      requires Repr() && Sane(model) && Conserved(model) && NextUp(pkt, model.log.regs)
      requires ValidRequest(PayloadOf(pkt.dg))
      requires AlwaysOurs(model, pkt.ip, ReqIdOf(pkt.dg), RequestKeys(PayloadOf(pkt.dg)))
      modifies this`ukeyLen, this`totalUkeySize, this`outstandingReq, this`requestId, this`lastSendClock, this`ticks,
               this`toServer, this`released, this`keyHold, this`clientPkts, this`rows, this`pool, this`lruPtr,
               this`model, ukey, keysSent, keysRcvd, lruQueue, pkt
      ensures Repr()
      ensures model == SendIfIdle(TakeKeys(old(model), pkt.ip, ReqIdOf(pkt.dg), RequestKeys(PayloadOf(pkt.dg))))
    {
      RequestKeysValid(PayloadOf(pkt.dg));
      var keys := StripKeys(PayloadOf(pkt.dg));
      TakeAllKeys(pkt, keys);
      SendIfRoom();
    }

    /** `app_client_in`.  Every key but the first is registered with a copy of the packet, which is taken not to
        have been evicted with the row of the first key by then. */
    method AppClientIn(pkt: Mbuf)
      requires Valid() && Legal(FromClient(pkt.ip, pkt.dg)) && NextUp(pkt, model.log.regs)
      requires CopiesSound(model, FromClient(pkt.ip, pkt.dg))
      modifies this`ukeyLen, this`totalUkeySize, this`outstandingReq, this`requestId, this`lastSendClock, this`ticks,
               this`toServer, this`released, this`keyHold, this`clientPkts, this`rows, this`pool, this`lruPtr,
               this`model, ukey, keysSent, keysRcvd, lruQueue, pkt
      ensures Valid() && model == ClientIn(old(model), pkt.ip, pkt.dg)
    {
      TidyStep(model, FromClient(pkt.ip, pkt.dg));
      SoundIsOurs(model, FromClient(pkt.ip, pkt.dg));
      if |pkt.dg| <= UDP_MAX_LEN {
        TakeRequest(pkt);
      }
    }

    // ---- Replies ------------------------------------------------------------------------------------------------

    /** `key_hold` and `last_key` after reading the key of a reply. */
    method NameRow(dg: seq<byte>, key: Option<Key>, ghost t: State)
      requires Repr() && Shaped(model) && IsDatagram(dg) && key == KeyOf(dg) && t == Named(model, dg)
      modifies this`keyHold, this`lastKey, this`model
      ensures Repr() && model == t
    {
      if key.Some? {
        keyHold := Signature(ReqIdOf(dg), key.value);
        if DatagramCountOf(dg) > 1 {
          lastKey := keyHold;
        }
      }
      model := t;
    }

    /** The address and request id of a waiting client, read out of its packet, which is still ours. */
    method ReadClient(m: Mbuf) returns (ip: nat, reqId: u16)
      requires m !in released && IsDatagram(m.dg)
      ensures ip == m.ip && reqId == ReqIdOf(m.dg)
    {
      return m.ip, ReqIdOf(m.dg);
    }

    /** `app_send` to a client: the driver gives up its reference once the frame is out. */
    method AppSendToClient(pkt: Packet, ip: nat, reqId: u16)
      requires IsDatagram(pkt.dg) && pkt.refs > 1
      modifies this`toClients, pkt`refs
      ensures toClients == old(toClients) + [Delivery(ip, Readdressed(pkt.dg, reqId))]
      ensures pkt.refs == old(pkt.refs) - 1
    {
      toClients := toClients + [Delivery(ip, BigEndian16(reqId) + pkt.dg[REQ_ID_SIZE..])];
      pkt.Drop();
    }

    /** The walk along the chain: the reply goes to each client under the client's own request id, and every
        reference taken for it is given back. */
    method FanToClients(head: Mbuf, pkt: Packet, ghost bufs: seq<Mbuf>, ghost chain: seq<Node>)
      requires IsDatagram(pkt.dg) && pkt.refs == 1
      requires bufs != [] && bufs[0] == head && Linked(bufs) && Spell(bufs, chain) && AllUnalike(released + bufs)
      modifies this`toClients, pkt`refs
      ensures toClients == old(toClients) + FanOut(pkt.dg, chain)
      ensures pkt.refs == 0
    {
      var ptr: Mbuf? := head;
      ghost var i := 0;
      while ptr != null
        invariant i <= |bufs| && ptr == (if i < |bufs| then bufs[i] else null)
        invariant pkt.refs == 1 && toClients == old(toClients) + FanOut(pkt.dg, chain[..i])
        decreases |bufs| - i
      {
        assert LeadsOn(bufs, i) && StandsFor(bufs[i], chain[i]);
        NotYetFreed(released, bufs, i);
        assert chain[..i + 1][..i] == chain[..i];
        var ip, reqId := ReadClient(ptr);
        pkt.Hold();
        AppSendToClient(pkt, ip, reqId);
        ptr := ptr.next;
        i := i + 1;
      }
      pkt.Drop();
      assert chain[..|bufs|] == chain;
    }

    /** Counting a reply; a request more than half answered is closed, and makes room for what is pending. */
    method CountAnswer(dg: seq<byte>)
      requires Repr() && Shaped(model) && IsDatagram(dg) && ReqIdOf(dg) < MAX_REQ_ID
      modifies this`ukeyLen, this`totalUkeySize, this`outstandingReq, this`requestId, this`lastSendClock,
               this`ticks, this`toServer, this`model, ukey, keysSent, keysRcvd
      ensures Repr() && model == CountReply(old(model), dg)
    {
      var id := ReqIdOf(dg);
      if keysRcvd[id] >= 0 && SequenceOf(dg) <= lastSeqId {
        var closed := RaiseCount(id);
        if closed {
          SendIfRoom();
        }
      }
    }

    /** One more key of the request is answered; more than half of them close it. */
    method RaiseCount(id: nat) returns (closed: bool)
      requires Repr() && Shaped(model) && id < MAX_REQ_ID && keysRcvd[id] >= 0
      modifies this`outstandingReq, this`model, keysRcvd
      ensures Repr() && closed == (old(model).keysRcvd[id] + 1 > old(model).keysSent[id] / 2)
      ensures model == if closed then Closed(old(model), id) else Answered(old(model), id)
    {
      keysRcvd[id] := keysRcvd[id] + 1;
      closed := keysRcvd[id] > keysSent[id] / 2;
      if closed {
        keysRcvd[id] := -1;
        outstandingReq := (outstandingReq + WORD16 - 1) % WORD16;
        model := Closed(model, id);
      } else {
        model := Answered(model, id);
      }
      assert keysRcvd[..] == model.keysRcvd;
    }

    /** Nothing of the chain of this row has been given back. */
    ghost predicate Intact(look: Sig)
      reads this
    {
      look in rows && AllUnalike(released + rows[look])
    }

    /** Counting the datagram against its row, or clearing the row of `key_hold`. */
    method TallyRow(look: Sig, expected: nat, ghost t: State)
      requires Repr() && Shaped(model) && look in clientPkts && look in model.table && Intact(look)
      requires t == Tally(model, look, expected)
      modifies this`clientPkts, this`released, this`model
      ensures Repr() && model == t
    {
      assert Holds(clientPkts, rows, model.table, pool, look);
      var slot := clientPkts[look];
      if slot.count < expected {
        RowCounted(clientPkts, rows, model.table, pool, look);
        clientPkts := clientPkts[look := slot.(count := slot.count + 1)];
        model := t;
      } else {
        ClearRow(slot, look, t);
      }
    }

    /** The row of `key_hold` goes, and the chain just walked is given back. */
    method ClearRow(slot: Slot, look: Sig, ghost t: State)
      requires Repr() && look in clientPkts && slot == clientPkts[look] && look in model.table && Intact(look)
      requires Shaped(model) && t == Cleared(model, look)
      modifies this`clientPkts, this`released, this`model
      ensures Repr() && model == t
    {
      assert Holds(clientPkts, rows, model.table, pool, look);
      FewerRows(clientPkts, rows, model.table, pool, {keyHold});
      SpellBoth(released, model.log.freed, rows[look], model.table[look].chain);
      clientPkts := clientPkts - {keyHold};
      FreeChain(slot.head, rows[look]);
      model := t;
    }

    /** The reply goes out to the clients of its row. */
    method HandOut(pkt: Packet, look: Sig, ghost s: State)
      requires Repr() && Shaped(s) && IsDatagram(pkt.dg) && pkt.refs == 1
      requires model == Named(s, pkt.dg) && look == Looked(s, pkt.dg) && look in clientPkts && look in s.table
      requires Intact(look)
      modifies this`toClients, this`model, pkt`refs
      ensures Repr() && model == Fanned(s, pkt.dg) && pkt.refs == 0
    {
      assert Holds(clientPkts, rows, model.table, pool, look);
      FanToClients(clientPkts[look].head, pkt, rows[look], model.table[look].chain);
      model := Fanned(s, pkt.dg);
    }

    /** `last_seq_id = _seq_id`. */
    method MarkSequence(dg: seq<byte>, ghost s: State)
      requires Repr() && Shaped(s) && IsDatagram(dg) && ReqIdOf(dg) < MAX_REQ_ID && Looked(s, dg) in s.table
      requires model == CountReply(Fanned(s, dg), dg)
      modifies this`lastSeqId, this`model
      ensures Repr() && model == Counted(s, dg)
    {
      lastSeqId := SequenceOf(dg);
      model := model.(lastSeq := SequenceOf(dg));
    }

    /** A reply whose row was found. */
    method Steer(pkt: Packet, look: Sig, ghost s: State)
      requires Repr() && Shaped(s) && IsDatagram(pkt.dg) && ReqIdOf(pkt.dg) < MAX_REQ_ID && pkt.refs == 1
      requires model == Named(s, pkt.dg) && look == Looked(s, pkt.dg) && look in clientPkts && look in s.table
      requires Intact(look)
      modifies this`ukeyLen, this`totalUkeySize, this`outstandingReq, this`requestId, this`lastSendClock,
               this`ticks, this`lastSeqId, this`clientPkts, this`toServer, this`toClients, this`released, this`model,
               ukey, keysSent, keysRcvd, pkt`refs
      ensures Repr() && model == Tally(Counted(s, pkt.dg), look, DatagramCountOf(pkt.dg)) && pkt.refs == 0
    {
      HandOut(pkt, look, s);
      CountAnswer(pkt.dg);
      MarkSequence(pkt.dg, s);
      TallyRow(look, DatagramCountOf(pkt.dg), Tally(model, look, DatagramCountOf(pkt.dg)));
    }

    /** A reply of acceptable length. */
    method TakeReply(pkt: Packet, ghost s: State)
      requires Repr() && model == s && Good(s) && Conserved(s)
      requires ValidReply(pkt.dg) && Fits(pkt.dg) && ReqIdOf(pkt.dg) < MAX_REQ_ID && pkt.refs == 1
      modifies this`ukeyLen, this`totalUkeySize, this`outstandingReq, this`requestId, this`lastSendClock, this`ticks,
               this`keyHold, this`lastKey, this`lastSeqId, this`clientPkts,
               this`toServer, this`toClients, this`released, this`model, ukey, keysSent, keysRcvd, pkt`refs
      ensures Repr() && model == ServerIn(s, pkt.dg) && pkt.refs == 0
    {
      var key := StripKeyValue(pkt.dg);
      NameRow(pkt.dg, key, Named(s, pkt.dg));
      var look := if key.Some? then keyHold else lastKey;
      if look in clientPkts {
        assert Holds(clientPkts, rows, model.table, pool, look);
        ChainIntact(s, released, rows[look], look);
        Steer(pkt, look, s);
      } else {
        pkt.Drop();
      }
    }

    /** `app_server_in`.  After a stray completion the next walk would lead through packets given back, so the
        reply is taken not to be one. */
    method AppServerIn(pkt: Packet)
      requires Valid() && Legal(FromServer(pkt.dg)) && !Stray(model, pkt.dg) && pkt.refs == 1
      modifies this`ukeyLen, this`totalUkeySize, this`outstandingReq, this`requestId, this`lastSendClock, this`ticks,
               this`keyHold, this`lastKey, this`lastSeqId, this`clientPkts,
               this`toServer, this`toClients, this`released, this`model, ukey, keysSent, keysRcvd, pkt`refs
      ensures Valid() && model == ServerIn(old(model), pkt.dg) && pkt.refs == 0
    {
      ghost var s := model;
      TidyStep(s, FromServer(pkt.dg));
      if |pkt.dg| > UDP_MAX_LEN {
        pkt.Drop();
      } else {
        TakeReply(pkt, s);
      }
    }
  }

  /** The buffer the walk has come to is not among those given back. */
  lemma NotYetFreed(released: seq<Mbuf>, bufs: seq<Mbuf>, i: nat)
    requires AllUnalike(released + bufs) && i < |bufs|
    ensures bufs[i] !in released + bufs[..i]
  {
    var all := released + bufs;
    forall j | 0 <= j < |released| + i
      ensures (released + bufs[..i])[j] != bufs[i]
    {
      assert Unalike(all, j, |released| + i);
    }
  }

  lemma TidyStep(s: State, e: Event)
    requires Good(s) && Conserved(s) && Lasting(s) && Legal(e) && (e.FromServer? ==> !Stray(s, e.dg))
    ensures Good(Step(s, e)) && Conserved(Step(s, e)) && Lasting(Step(s, e))
  {
    GoodStep(s, e);
    ConservedStep(s, e);
    StepLasts(s, e);
  }

  /** A packet whose node was not freed has not been given back. */
  lemma NotGivenBack(released: seq<Mbuf>, freed: seq<Node>, b: Mbuf, x: Node)
    requires Spell(released, freed) && StandsFor(b, x) && x !in freed
    ensures b !in released
  {
    forall i | 0 <= i < |released|
      ensures released[i] != b
    {
      assert StandsFor(released[i], freed[i]);
    }
  }

  lemma InsertKeeps(s: State, t: State, key: Key)
    requires Chained(s) && Conserved(s) && t == InsertKey(s, key)
    ensures Shaped(t) && Chained(t) && Conserved(t)
  {
    RowsOnly(s, t);
    SamePackets(s, t);
  }

  lemma {:induction false} CleanPrefix(clock: nat -> int, es: seq<Event>, n: nat)
    requires AllLegal(es) && CleanRun(clock, es) && n <= |es|
    ensures CleanRun(clock, es[..n])
  {
    if n < |es| {
      CleanPrefix(clock, es[..|es| - 1], n);
      assert es[..|es| - 1][..n] == es[..n];
    } else {
      assert es[..n] == es;
    }
  }

  lemma NextEvent(clock: nat -> int, es: seq<Event>, n: nat, s: State)
    requires AllLegal(es) && CleanRun(clock, es) && n < |es| && s == Run(clock, es[..n])
    ensures CleanRun(clock, es[..n + 1]) && Run(clock, es[..n + 1]) == Step(s, es[n])
    ensures Legal(es[n]) && CleanEvent(s, es[n])
  {
    CleanPrefix(clock, es, n + 1);
    assert es[..n + 1][..n] == es[..n];
  }

  /** `udp_in` handing a packet to the application, or the main loop calling the timer. */
  method Handle(m: Middlebox, e: Event)
    requires m.Valid() && Legal(e) && CleanEvent(m.model, e)
    modifies m, m.ukey, m.keysSent, m.keysRcvd, m.lruQueue
    ensures m.Valid() && m.model == Step(old(m.model), e)
  {
    match e
    case FromClient(ip, dg) =>
      var pkt := new Mbuf(ip, dg, |m.model.log.regs|);
      m.AppClientIn(pkt);
    case FromServer(dg) =>
      var pkt := new Packet(dg);
      m.AppServerIn(pkt);
    case Timer => m.RefreshBacklog();
  }

  // ---- Where every buffer is -----------------------------------------------------------------------------

  ghost predicate InRow(m: Middlebox, sig: Sig, b: Mbuf)
    reads m
  {
    sig in m.clientPkts && sig in m.rows && b in m.rows[sig]
  }

  /** A catalogued buffer is in a list exactly when its node is in what the list spells. */
  lemma SpeltIn(bufs: seq<Mbuf>, nodes: seq<Node>, pool: set<Mbuf>, regs: seq<Reg>, b: Mbuf, x: Node)
    requires Spell(bufs, nodes) && Within(bufs, pool) && Catalogued(pool, regs) && b in pool && StandsFor(b, x)
    ensures b in bufs <==> x in nodes
  {
    if b in bufs {
      var i :| 0 <= i < |bufs| && bufs[i] == b;
      assert StandsFor(bufs[i], nodes[i]);
    }
    if x in nodes {
      var i :| 0 <= i < |nodes| && nodes[i] == x;
      assert StandsFor(bufs[i], nodes[i]) && bufs[i] in pool && SameBuffer(bufs[i], b);
    }
  }

  /** MAIN.  Every buffer ever put into a chain has been given back, once, and is in no chain, or it has not
      been given back and is in exactly one chain. */
  lemma BuffersInOnePlace(m: Middlebox, b: Mbuf)
    requires m.Valid() && b in m.pool
    ensures AllUnalike(m.released)
    ensures b in m.released <==> forall sig :: !InRow(m, sig, b)
    ensures forall x, y :: InRow(m, x, b) && InRow(m, y, b) ==> x == y
  {
    var s, n := m.model, b.serial;
    assert Listed(b, s.log.regs);
    var x := s.log.regs[n].node;
    UnalikeAsSpelt(m.released, s.log.freed);
    SpeltIn(m.released, s.log.freed, m.pool, s.log.regs, b, x);
    OnePlaceEach(s, n);
    forall sig
      ensures InRow(m, sig, b) <==> sig in s.table && x in s.table[sig].chain
    {
      if sig in m.clientPkts {
        assert Holds(m.clientPkts, m.rows, s.table, m.pool, sig);
        SpeltIn(m.rows[sig], s.table[sig].chain, m.pool, s.log.regs, b, x);
      }
    }
  }

  /** The middlebox after the first n events of a run. */
  ghost predicate Arrived(m: Middlebox, clock: nat -> int, es: seq<Event>, n: nat)
    requires AllLegal(es) && n <= |es|
    reads m, m.ukey, m.keysSent, m.keysRcvd, m.lruQueue, m.pool
  {
    m.Valid() && CleanRun(clock, es[..n]) && m.model == Run(clock, es[..n])
  }

  lemma NothingArrived(m: Middlebox, clock: nat -> int, es: seq<Event>)
    requires AllLegal(es) && m.Valid() && m.model == Initial(clock)
    ensures Arrived(m, clock, es, 0)
  {
    assert es[..0] == [];
  }

  lemma AllArrived(m: Middlebox, clock: nat -> int, es: seq<Event>)
    requires AllLegal(es) && Arrived(m, clock, es, |es|)
    ensures m.Valid() && m.model == Run(clock, es)
    ensures m.toServer == m.model.log.toServer && m.toClients == m.model.log.toClients
    ensures Spell(m.released, m.model.log.freed) && AllUnalike(m.released)
  {
    assert es[..|es|] == es;
    UnalikeAsSpelt(m.released, m.model.log.freed);
  }

  /** One event of a run. */
  method HandleNext(m: Middlebox, clock: nat -> int, es: seq<Event>, n: nat)
    requires AllLegal(es) && CleanRun(clock, es) && n < |es| && Arrived(m, clock, es, n)
    modifies m, m.ukey, m.keysSent, m.keysRcvd, m.lruQueue
    ensures Arrived(m, clock, es, n + 1)
  {
    NextEvent(clock, es, n, m.model);
    Handle(m, es[n]);
  }

  /** The packets keep arriving. */
  method HandleAll(m: Middlebox, clock: nat -> int, es: seq<Event>)
    requires AllLegal(es) && CleanRun(clock, es) && Arrived(m, clock, es, 0)
    modifies m, m.ukey, m.keysSent, m.keysRcvd, m.lruQueue
    ensures Arrived(m, clock, es, |es|)
  {
    for n := 0 to |es|
      invariant Arrived(m, clock, es, n)
    {
      HandleNext(m, clock, es, n);
    }
  }

  /** MAIN.  Handling any sequence of legal events without a stray completion and without a copy of a packet
      given back, from the static initialisers on, leaves the middlebox in the state the run has, having sent the
      server and the clients exactly the datagrams of the run, and having given back exactly the packets the run
      frees, each once, and read none of them afterwards.  So every property of such runs is one of the code. */
  method Serve(clock: nat -> int, es: seq<Event>) returns (m: Middlebox)
    requires AllLegal(es) && CleanRun(clock, es)
    ensures m.Valid() && m.model == Run(clock, es)
    ensures m.toServer == Run(clock, es).log.toServer
    ensures m.toClients == Run(clock, es).log.toClients
    ensures Spell(m.released, Run(clock, es).log.freed) && AllUnalike(m.released)
  {
    m := new Middlebox(clock);
    NothingArrived(m, clock, es);
    HandleAll(m, clock, es);
    AllArrived(m, clock, es);
  }

  /** One more key leads to the next state. */
  lemma NextTaken(s: State, t: State, ip: nat, id: u16, keys: seq<Key>, i: nat)
    requires Shaped(s) && i < |keys| && t == TakeKeys(s, ip, id, keys[..i])
    ensures i == 0 ==> t == s
    ensures TakeKeys(s, ip, id, keys[..i + 1]) == TakeKey(t, ip, id, keys[i])
  {
    assert keys[..i + 1][..i] == keys[..i];
  }

  lemma OneKeySize(key: Key)
    ensures TotalSize([key]) == |key|
  {
    assert [key][..0] == [];
  }
}
