/** Where the obvious claims fail: inputs that show it, and what holds of every such input. */
module Counterexamples {
  import opened Bytes
  import opened Text
  import opened Wire
  import opened Protocol
  import opened Batching
  import opened Aging
  import opened Chains
  import opened Steering
  import opened Runs
  import opened Accounting
  import opened Service

  // ---- The key that overflows a batch -------------------------------------------------------------------

  /** The key that overflows a batch is registered under the old id and travels under the new one, under which
      no row exists at all: unless somebody asks for it again first, its reply finds no client. */
  lemma OverflowKeyHasNoRow(s: State, r: State, ip: nat, reqId: u16, key: Key, k: Key)
    requires Sane(s) && ValidKey(key) && r == Register(InsertKey(s, key), ip, reqId, key) && Overfull(r)
    ensures var t := TakeKey(s, ip, reqId, key);
      && t.pending == [key]
      && Signature(s.reqId, key) in t.table
      && Signature(t.reqId, k) !in t.table
  {
    var t := SendBatch(r, true);
    RegisterPacks(s, ip, reqId, key);
    OverflowIsNew(s, r, key);
    OverflowAges(s, InsertKey(s, key), r, t, ip, reqId, key);
    NothingThisEpoch(t, k);
  }

  /** After an overflow the newest creation lies one epoch back. */
  lemma OverflowAges(s: State, i: State, r: State, t: State, ip: nat, reqId: u16, key: Key)
    requires Aged(s) && i == InsertKey(s, key) && r == Register(i, ip, reqId, key) && r.pending != []
    requires t == SendBatch(r, true)
    ensures Aged(t) && t.log.made != [] && Latest(t) < Epoch(t)
  {
    RingOnly(s, i);
    RegisterAges(i, ip, reqId, key);
    SendAges(r, true);
  }

  /** In an epoch without creations no signature of the current id is in the table. */
  lemma NothingThisEpoch(s: State, k: Key)
    requires Aged(s) && s.log.made != [] && Latest(s) < Epoch(s)
    ensures Signature(s.reqId, k) !in s.table
  {
    forall c | 0 <= c < Created(s)
      ensures s.log.made[c].epoch < Epoch(s)
    {
      assert Paced(s, c);
    }
    if Signature(s.reqId, k) in s.table {
      NoAlias(s, k);
      assert false;
    }
  }

  // ---- Two keys asked for in one request, at the very start ------------------------------------------------

  /** "get a b" */
  function GetTwo(reqId: u16, a: Key, b: Key): (dg: seq<byte>)
    ensures IsDatagram(dg)
  {
    GetRequest(reqId, [a, b])
  }

  /** A datagram of the server. */
  function Reply(id: u16, sequence: u16, count: u16, text: seq<byte>): (dg: seq<byte>)
    ensures IsDatagram(dg)
  {
    BigEndian16(id) + BigEndian16(sequence) + BigEndian16(count) + [0, 0] + text + TAIL
  }

  lemma ReplyReads(id: u16, sequence: u16, count: u16, text: seq<byte>)
    ensures var dg := Reply(id, sequence, count, text);
      && ReqIdOf(dg) == id && SequenceOf(dg) == sequence && DatagramCountOf(dg) == count && PayloadOf(dg) == text
      && |dg| == |text| + 10
  {
    var dg := Reply(id, sequence, count, text);
    assert dg[0] == id / 256 && dg[1] == id % 256;
    assert dg[2] == sequence / 256 && dg[3] == sequence % 256;
    assert dg[4] == count / 256 && dg[5] == count % 256;
  }

  predicate TwoKeys(a: Key, b: Key) {
    ValidKey(a) && ValidKey(b) && a != b
  }

  lemma GetTwoReads(reqId: u16, a: Key, b: Key)
    requires TwoKeys(a, b) && |a| + |b| <= 1457
    ensures var dg := GetTwo(reqId, a, b);
      Fits(dg) && ReqIdOf(dg) == reqId && ValidRequest(PayloadOf(dg)) && RequestKeys(PayloadOf(dg)) == [a, b]
  {
    assert [a, b][..1] == [a] && [a][..0] == [];
    assert TotalSize([a, b]) == TotalSize([a]) + |b| == |a| + |b|;
    GetRequestReads(reqId, [a, b]);
  }

  /** Nothing has been counted for id 7, which was never sent. */
  predicate Uncounted(t: State) {
    Shaped(t) && t.keysRcvd[7] == 0 && t.keysSent[7] == 0 && t.lastSeq == 0 && t.log.reissues == 0
  }

  /** The first key of the first request. */
  ghost predicate OneRow(t: State, ip: nat, reqId: u16, a: Key) {
    && Uncounted(t) && t.pending == [a] && t.total == |a| && t.reqId == 0 && t.outstanding == 0
    && t.table == map[Signature(0, a) := Entry([Node(0, ip, reqId)], 1)]
    && t.ringPtr == 1 && t.ring[1] == []
    && t.log.batches == [] && t.log.toClients == []
  }

  lemma FirstKey(s: State, t: State, ip: nat, reqId: u16, a: Key)
    requires Uncounted(s) && s.pending == [] && s.total == 0 && s.reqId == 0 && s.outstanding == 0 && s.table == map[]
    requires s.ringPtr == 0 && s.ring[1] == [] && s.log.batches == [] && s.log.regs == [] && s.log.toClients == []
    requires ValidKey(a) && t == TakeKey(s, ip, reqId, a)
    ensures OneRow(t, ip, reqId, a)
  {
    assert s.pending + [a] == [a];
  }

  /** Both keys registered, before the size check. */
  ghost predicate TwoRows(r: State, a: Key, b: Key) {
    && Uncounted(r) && r.pending == [a, b] && r.total == |a| + |b| && r.reqId == 0 && r.outstanding == 0
    && r.table.Keys == {Signature(0, a), Signature(0, b)}
    && r.table[Signature(0, a)].count == 1 && r.table[Signature(0, b)].count == 1
    && r.log.batches == [] && r.log.toClients == []
  }

  lemma SecondKey(t: State, r: State, ip: nat, reqId: u16, a: Key, b: Key)
    requires TwoKeys(a, b) && OneRow(t, ip, reqId, a) && r == Register(InsertKey(t, b), ip, reqId, b)
    ensures TwoRows(r, a, b)
  {
    if Signature(0, a) == Signature(0, b) { SignatureInjective(0, a, 0, b); }
    assert [a] + [b] == [a, b];
  }

  /** What the request makes of the initial state. */
  lemma TwoKeysTaken(s: State, dg: seq<byte>, ip: nat, reqId: u16, a: Key, b: Key) returns (r: State)
    requires Uncounted(s) && s.pending == [] && s.total == 0 && s.reqId == 0 && s.outstanding == 0 && s.table == map[]
    requires s.ringPtr == 0 && s.ring[1] == [] && s.log.batches == [] && s.log.regs == [] && s.log.toClients == []
    requires TwoKeys(a, b) && |a| + |b| <= 1457 && dg == GetTwo(reqId, a, b)
    ensures TwoRows(r, a, b)
    ensures ClientIn(s, ip, dg) == SendIfIdle(if Overfull(r) then SendBatch(r, true) else r)
  {
    GetTwoReads(reqId, a, b);
    var t := TakeKey(s, ip, reqId, a);
    FirstKey(s, t, ip, reqId, a);
    r := Register(InsertKey(t, b), ip, reqId, b);
    SecondKey(t, r, ip, reqId, a, b);
    TakeTwo(s, ip, reqId, a, b);
  }

  lemma TakeTwo(s: State, ip: nat, reqId: u16, a: Key, b: Key)
    requires Shaped(s)
    ensures TakeKeys(s, ip, reqId, [a, b]) == TakeKey(TakeKey(s, ip, reqId, a), ip, reqId, b)
  {
    assert [a, b][..1] == [a] && [a][..0] == [];
    assert TakeKeys(s, ip, reqId, [a]) == TakeKey(s, ip, reqId, a);
  }

  lemma InitialIsEmpty(clock: nat -> int)
    ensures var s := Initial(clock);
      && Uncounted(s) && s.pending == [] && s.total == 0 && s.reqId == 0 && s.outstanding == 0 && s.table == map[]
      && s.ringPtr == 0 && s.ring[1] == [] && s.log.batches == [] && s.log.regs == [] && s.log.toClients == []
  {}

  lemma RunOfOne(clock: nat -> int, e: Event)
    requires Legal(e)
    ensures AllLegal([e]) && Run(clock, [e]) == Step(Initial(clock), e)
    ensures !e.FromServer? ==> TidyRun(clock, [e])
  {
    assert [e][..0] == [];
  }

  /** The overflow seen from outside. */
  ghost predicate LeftBehind(t: State, a: Key, b: Key) {
    && t.log.batches == [Batch(0, [a]), Batch(1, [b])] && t.log.toClients == []
    && Signature(0, b) in t.table && Signature(1, b) !in t.table
  }

  lemma OverflowTwo(r: State, t: State, a: Key, b: Key)
    requires TwoKeys(a, b) && TwoRows(r, a, b) && |a| + |b| == 1457
    requires t == SendIfIdle(if Overfull(r) then SendBatch(r, true) else r)
    ensures LeftBehind(t, a, b)
  {
    var u := SendBatch(r, true);
    assert [a, b][..1] == [a];
    assert u.log.batches == [Batch(0, [a])] && u.pending == [b];
    assert u.log.batches + [Batch(1, [b])] == [Batch(0, [a]), Batch(1, [b])];
    if Signature(1, b) == Signature(0, a) { SignatureInjective(1, b, 0, a); }
    if Signature(1, b) == Signature(0, b) { SignatureInjective(1, b, 0, b); }
  }

  /** MAIN.  A single first request for two keys of 1457 characters together is enough: b goes to the server
      under id 1 but waits under id 0, and whatever the server answers for it reaches nobody. */
  lemma OverflowHappens(clock: nat -> int, ip: nat, reqId: u16, a: Key, b: Key, reply: seq<byte>)
    requires TwoKeys(a, b) && |a| + |b| == 1457
    requires ValidReply(reply) && ReqIdOf(reply) == 1 && KeyOf(reply) == Some(b)
    ensures var request, answer := FromClient(ip, GetTwo(reqId, a, b)), FromServer(reply);
      && AllLegal([request]) && AllLegal([request, answer])
      && LeftBehind(Run(clock, [request]), a, b)
      && Run(clock, [request, answer]).log.toClients == []
  {
    var request, answer := FromClient(ip, GetTwo(reqId, a, b)), FromServer(reply);
    GetTwoReads(reqId, a, b);
    InitialIsEmpty(clock);
    RunOfOne(clock, request);
    var t := Run(clock, [request]);
    var r := TwoKeysTaken(Initial(clock), request.dg, ip, reqId, a, b);
    OverflowTwo(r, t, a, b);
    assert [request, answer][..1] == [request];
    Unserved(t, reply, b);
  }

  lemma Unserved(t: State, reply: seq<byte>, b: Key)
    requires Shaped(t) && ValidReply(reply) && ReqIdOf(reply) == 1 && KeyOf(reply) == Some(b)
    requires Signature(1, b) !in t.table
    ensures ServerIn(t, reply).log.toClients == t.log.toClients
  {}

  // ---- Values that interleave ---------------------------------------------------------------------------

  /** The first of two datagrams of a value. */
  lemma FirstOfTwo(s: State, t: State, dg: seq<byte>, id: nat, key: Key)
    requires Chained(s) && Conserved(s) && IsDatagram(dg) && Fits(dg) && ReqIdOf(dg) == id && id < MAX_REQ_ID
    requires KeyOf(dg) == Some(key) && DatagramCountOf(dg) == 2 && Ready(s, id, key) && t == ServerIn(s, dg)
    ensures Conserved(t) && t.lastKey == Signature(id, key)
    ensures t.table == s.table[Signature(id, key) := s.table[Signature(id, key)].(count := 2)]
  {
    CountedFacts(s, dg);
    ServerConserves(s, dg);
  }

  /** The only datagram of a value. */
  lemma OnlyOne(s: State, t: State, dg: seq<byte>, id: nat, key: Key)
    requires Chained(s) && Conserved(s) && IsDatagram(dg) && Fits(dg) && ReqIdOf(dg) == id && id < MAX_REQ_ID
    requires KeyOf(dg) == Some(key) && DatagramCountOf(dg) == 1 && Ready(s, id, key) && t == ServerIn(s, dg)
    ensures Conserved(t) && t.lastKey == s.lastKey && t.keyHold == Signature(id, key)
    ensures t.table == s.table - {Signature(id, key)}
  {
    CountedFacts(s, dg);
    ServerConserves(s, dg);
  }

  /** The first datagram of a, all of b, the rest of a. */
  ghost predicate Interleaved(dgs: seq<seq<byte>>, id: nat, a: Key, b: Key) {
    && |dgs| == 3 && id < MAX_REQ_ID
    && (forall i :: 0 <= i < 3 ==> IsDatagram(dgs[i]) && Fits(dgs[i]) && ReqIdOf(dgs[i]) == id)
    && KeyOf(dgs[0]) == Some(a) && DatagramCountOf(dgs[0]) == 2
    && KeyOf(dgs[1]) == Some(b) && DatagramCountOf(dgs[1]) == 1
    && KeyOf(dgs[2]) == None && DatagramCountOf(dgs[2]) == 2
  }

  /** Two values that interleave: the row of a is completed while `key_hold` names b, so its packets are freed
      and stay in the table. */
  lemma InterleavingBreaks(s: State, dgs: seq<seq<byte>>, id: nat, a: Key, b: Key)
    requires Sane(s) && Conserved(s) && a != b && Interleaved(dgs, id, a, b)
    requires Ready(s, id, a) && Ready(s, id, b)
    ensures Usable(dgs) && !Conserved(Deliver(s, dgs))
  {
    if Signature(id, a) == Signature(id, b) { SignatureInjective(id, a, id, b); }
    var t := ServerIn(s, dgs[0]);
    FirstOfTwo(s, t, dgs[0], id, a);
    SaneServer(s, dgs[0], t);
    CrossedBreaks(t, ServerIn(t, dgs[1]), dgs[1], dgs[2], id, a, b);
    DeliverThree(s, dgs);
  }

  /** All of b, then the rest of a. */
  lemma CrossedBreaks(t: State, u: State, dg: seq<byte>, rest: seq<byte>, id: nat, a: Key, b: Key)
    requires Sane(t) && Conserved(t) && Signature(id, a) != Signature(id, b) && t.lastKey == Signature(id, a)
    requires id < MAX_REQ_ID && IsDatagram(dg) && Fits(dg) && ReqIdOf(dg) == id
    requires KeyOf(dg) == Some(b) && DatagramCountOf(dg) == 1 && Ready(t, id, b) && u == ServerIn(t, dg)
    requires IsDatagram(rest) && Fits(rest) && ReqIdOf(rest) == id && KeyOf(rest) == None && DatagramCountOf(rest) == 2
    requires Signature(id, a) in t.table && t.table[Signature(id, a)].count == 2
    ensures !Conserved(ServerIn(u, rest))
  {
    OnlyOne(t, u, dg, id, b);
    SaneServer(t, dg, u);
    LateRest(u, rest);
  }

  /** The rest of a value whose row is due while `key_hold` names another. */
  lemma LateRest(s: State, dg: seq<byte>)
    requires Chained(s) && Conserved(s) && IsDatagram(dg) && Fits(dg) && ReqIdOf(dg) < MAX_REQ_ID
    requires KeyOf(dg) == None && s.lastKey in s.table && s.table[s.lastKey].count >= DatagramCountOf(dg)
    requires s.keyHold != s.lastKey
    ensures !Conserved(ServerIn(s, dg))
  {
    StrayBreaks(s, dg);
  }

  lemma DeliverThree(s: State, dgs: seq<seq<byte>>)
    requires Shaped(s) && Usable(dgs) && |dgs| == 3
    ensures Deliver(s, dgs) == ServerIn(ServerIn(ServerIn(s, dgs[0]), dgs[1]), dgs[2])
  {
    var two := dgs[..2];
    var one := two[..1];
    assert one[..0] == [];
    assert Deliver(s, one) == ServerIn(s, dgs[0]);
    assert Deliver(s, two) == ServerIn(Deliver(s, one), dgs[1]);
  }

  // the replies "VALUE a x" (first of two), "VALUE b x" and "x" (the rest)
  const LETTER: byte := 120

  function ValueText(key: Key): seq<byte> {
    VALUE + [SPACE] + key + [SPACE] + [LETTER]
  }

  function Crossing(a: Key, b: Key): (dgs: seq<seq<byte>>)
    ensures |dgs| == 3
  {
    [Reply(0, 0, 2, ValueText(a)), Reply(0, 0, 1, ValueText(b)), Reply(0, 1, 2, [LETTER])]
  }

  lemma CrossingInterleaves(a: Key, b: Key)
    requires TwoKeys(a, b)
    ensures Interleaved(Crossing(a, b), 0, a, b)
    ensures Usable(Crossing(a, b)) && ValidReplies(Crossing(a, b))
  {
    ReplyReads(0, 0, 2, ValueText(a));
    ReplyReads(0, 0, 1, ValueText(b));
    ReplyReads(0, 1, 2, [LETTER]);
    ReplyNamesKey(Reply(0, 0, 2, ValueText(a)), a, [LETTER]);
    ReplyNamesKey(Reply(0, 0, 1, ValueText(b)), b, [LETTER]);
    ShortTextNamesNone(Reply(0, 1, 2, [LETTER]));
  }

  /** MAIN.  A first request for two short keys, and the server's replies to it in crossing order: afterwards
      a packet is in two places. */
  lemma InterleavingHappens(clock: nat -> int, ip: nat, reqId: u16, a: Key, b: Key)
    requires TwoKeys(a, b) && |a| + |b| < 1457
    ensures var dgs, request := Crossing(a, b), FromClient(ip, GetTwo(reqId, a, b));
      && AllLegal([request] + Replies(dgs))
      && !Conserved(Run(clock, [request] + Replies(dgs)))
  {
    var dgs, request := Crossing(a, b), FromClient(ip, GetTwo(reqId, a, b));
    GetTwoReads(reqId, a, b);
    InitialIsEmpty(clock);
    RunOfOne(clock, request);
    var t := Run(clock, [request]);
    var r := TwoKeysTaken(Initial(clock), request.dg, ip, reqId, a, b);
    assert t.table == r.table;
    TidyRunsConserve(clock, [request]);
    CrossingInterleaves(a, b);
    InterleavingBreaks(t, dgs, 0, a, b);
    DeliverThree(t, dgs);
    RunOfReplies(clock, [request], dgs);
  }

  // ---- A reply to an id that was never sent ---------------------------------------------------------------

  /** One batch of two keys has gone out, and the counters of ids 0 and 7 are these. */
  ghost predicate OneSent(t: State, a: Key, counted: int) {
    && Uncounted(t) && t.pending == [] && t.outstanding == 1 && Epoch(t) == 1
    && t.keysRcvd[0] == counted && t.keysSent[0] == 2 && Signature(0, a) in t.table
  }

  lemma AfterRequest(clock: nat -> int, ip: nat, reqId: u16, a: Key, b: Key)
    requires TwoKeys(a, b) && |a| + |b| < 1457
    ensures var request := FromClient(ip, GetTwo(reqId, a, b));
      && AllLegal([request]) && OneSent(Run(clock, [request]), a, 0)
      && Run(clock, [request]).table[Signature(0, a)].count == 1
  {
    var request, s := FromClient(ip, GetTwo(reqId, a, b)), Initial(clock);
    GetTwoReads(reqId, a, b);
    InitialIsEmpty(clock);
    RunOfOne(clock, request);
    var r := TwoKeysTaken(s, request.dg, ip, reqId, a, b);
  }

  lemma AfterHead(s: State, t: State, dg: seq<byte>, a: Key)
    requires OneSent(s, a, 0) && IsDatagram(dg) && Fits(dg) && ReqIdOf(dg) == 0 && SequenceOf(dg) == 0
    requires KeyOf(dg) == Some(a) && DatagramCountOf(dg) == 2 && s.table[Signature(0, a)].count == 1
    requires t == ServerIn(s, dg)
    ensures OneSent(t, a, 1) && t.lastKey == Signature(0, a)
  {}

  lemma AfterUnasked(s: State, t: State, dg: seq<byte>, a: Key)
    requires OneSent(s, a, 1) && s.lastKey == Signature(0, a)
    requires IsDatagram(dg) && Fits(dg) && ReqIdOf(dg) == 7 && SequenceOf(dg) == 0 && KeyOf(dg) == None
    requires t == ServerIn(s, dg)
    ensures Shaped(t) && t.outstanding == 0 && Epoch(t) == 1 && t.keysRcvd[0] == 1 && t.log.reissues == 0
  {}

  /** The replies "VALUE a x" to id 0 and "x" to id 7. */
  function Unasked(a: Key): (dgs: seq<seq<byte>>)
    ensures |dgs| == 2
  {
    [Reply(0, 0, 2, ValueText(a)), Reply(7, 0, 2, [LETTER])]
  }

  lemma DeliverTwo(s: State, dgs: seq<seq<byte>>)
    requires Shaped(s) && Usable(dgs) && |dgs| == 2
    ensures Deliver(s, dgs) == ServerIn(ServerIn(s, dgs[0]), dgs[1])
  {
    var one := dgs[..1];
    assert one[..0] == [];
    assert Deliver(s, one) == ServerIn(s, dgs[0]);
  }

  /** The first of two datagrams for a under id 0, and a continuation under id 7. */
  ghost predicate Misled(dgs: seq<seq<byte>>, a: Key) {
    && |dgs| == 2 && Usable(dgs) && ValidReplies(dgs) && Fits(dgs[0]) && Fits(dgs[1])
    && ReqIdOf(dgs[0]) == 0 && SequenceOf(dgs[0]) == 0 && DatagramCountOf(dgs[0]) == 2 && KeyOf(dgs[0]) == Some(a)
    && ReqIdOf(dgs[1]) == 7 && SequenceOf(dgs[1]) == 0 && KeyOf(dgs[1]) == None
  }

  lemma UnaskedMisleads(a: Key)
    requires ValidKey(a) && |a| < 1457
    ensures Misled(Unasked(a), a)
  {
    ReplyReads(0, 0, 2, ValueText(a));
    ReplyReads(7, 0, 2, [LETTER]);
    ReplyNamesKey(Reply(0, 0, 2, ValueText(a)), a, [LETTER]);
    ShortTextNamesNone(Reply(7, 0, 2, [LETTER]));
  }

  lemma MisledCounts(s: State, dgs: seq<seq<byte>>, a: Key)
    requires OneSent(s, a, 0) && s.table[Signature(0, a)].count == 1 && Misled(dgs, a)
    ensures var t := Deliver(s, dgs);
      t.outstanding == 0 && OpenIds(t) == {0} && !CounterTells(t)
  {
    var t := ServerIn(s, dgs[0]);
    var u := ServerIn(t, dgs[1]);
    AfterHead(s, t, dgs[0], a);
    AfterUnasked(t, u, dgs[1], a);
    DeliverTwo(s, dgs);
    OneOpen(u);
  }

  /** MAIN.  What `outstanding_req` means hangs on the server: one continuation under an id that was never sent
      leaves the counter at 0 while the only request ever sent is still open. */
  lemma UnaskedReplyMiscounts(clock: nat -> int, ip: nat, reqId: u16, a: Key, b: Key)
    requires TwoKeys(a, b) && |a| + |b| < 1457
    ensures var es := [FromClient(ip, GetTwo(reqId, a, b))] + Replies(Unasked(a));
      && AllLegal(es) && Run(clock, es).outstanding == 0
      && OpenIds(Run(clock, es)) == {0} && !CounterTells(Run(clock, es))
  {
    var request := FromClient(ip, GetTwo(reqId, a, b));
    AfterRequest(clock, ip, reqId, a, b);
    UnaskedMisleads(a);
    MisledCounts(Run(clock, [request]), Unasked(a), a);
    RunOfReplies(clock, [request], Unasked(a));
  }

  lemma OneOpen(s: State)
    requires Shaped(s) && s.outstanding == 0 && Epoch(s) == 1 && s.keysRcvd[0] == 1 && s.log.reissues == 0
    ensures OpenIds(s) == {0} && !CounterTells(s)
  {
    forall id ensures id in OpenIds(s) <==> id == 0 { assert IsOpen(s, id) <==> id == 0; }
  }
}
