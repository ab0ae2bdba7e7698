/** middlebox/src/api.c as a state machine.

    Every function here is one C function (or the body of one of its loops) on the value of the static
    variables; `Middlebox` in Middlebox.dfy is the same code on arrays, chains and fields, proved equal
    to it step by step.  `Log` holds what the C code does not keep: what went out on the wire, what was
    freed, and the history the invariants talk about. */
module Protocol {
  import opened Bytes
  import opened Text
  import opened Wire

  const MAP_ENTRIES := 600
  const MAX_REQ_ID := 60000
  const MIN_OUTSTANDING_REQ := 1000
  const TIMEOUT := 100
  const CLOCKS_PER_MS := 1000
  const WORD16 := 65536

  /** One client packet waiting for a reply; `serial` tells registrations apart. */
  datatype Node = Node(serial: nat, ip: nat, reqId: u16)

  /** A row of the client table: the chain, newest first, and its `pkt_counts` cell. */
  datatype Entry = Entry(chain: seq<Node>, count: nat)

  /** A datagram steered to a client. */
  datatype Delivery = Delivery(ip: nat, bytes: seq<byte>)

  /** A batch sent to the server. */
  datatype Batch = Batch(id: nat, keys: seq<Key>)

  /** A registration: made while `epoch` batches had been sent. */
  datatype Reg = Reg(epoch: nat, key: Key, node: Node)

  /** The creation of a table row: the epoch, the key, and how many registrations came before. */
  datatype Made = Made(epoch: nat, key: Key, since: nat)

  /** An id taken for fulfilled, when so many batches had been sent. */
  datatype Closing = Closing(id: nat, epoch: nat)

  /** A row completed, when so many registrations had been made. */
  datatype Done = Done(sig: Sig, since: nat)

  datatype Log = Log(
    toServer: seq<seq<byte>>,   // datagrams handed to the IP layer for the server
    toClients: seq<Delivery>,   // datagrams handed to the IP layer for clients
    freed: seq<Node>,           // client packets returned to the pool
    regs: seq<Reg>,             // all registrations
    batches: seq<Batch>,        // all batches
    cuts: seq<nat>,             // registrations before each batch's first key left behind
    made: seq<Made>,            // all rows ever created
    born: map<Sig, nat>,        // the newest creation of each signature
    debt: int,                  // `outstanding_req` without wrap-around
    closings: seq<Closing>,     // every time a counter passed the threshold
    reissues: nat,              // batches sent under an id still open, since the last timeout
    done: seq<Done>)            // every row completed by a reply

  datatype State = State(
    pending: seq<Key>,          // ukey[..ukey_len]
    total: nat,                 // total_ukey_size
    reqId: nat,                 // request_id
    outstanding: nat,           // outstanding_req, 16 bits wide
    keysSent: seq<nat>,
    keysRcvd: seq<int>,
    table: map<Sig, Entry>,     // client_pkts with pkt_counts
    ring: seq<Sig>,             // LRU_queue
    ringPtr: nat,               // LRU_ptr
    keyHold: Sig,
    lastKey: Sig,
    lastSeq: nat,               // last_seq_id
    lastSend: int,              // last_send_clock
    clock: nat -> int,          // what successive calls of clock() return
    ticks: nat,                 // calls of clock() so far
    log: Log)

  predicate Shaped(s: State) {
    && |s.keysSent| == |s.keysRcvd| == MAX_REQ_ID && s.reqId < MAX_REQ_ID
    && |s.ring| == MAP_ENTRIES && s.ringPtr < MAP_ENTRIES
    && s.outstanding < WORD16
  }

  const EMPTY_LOG := Log([], [], [], [], [], [], [], map[], 0, [], 0, [])

  function Initial(clock: nat -> int): (s: State)
    ensures Shaped(s)
  {
    State([], 0, 0, 0, seq(MAX_REQ_ID, _ => 0), seq(MAX_REQ_ID, _ => 0), map[],
          seq(MAP_ENTRIES, _ => []), 0, [], [], 0, 0, clock, 0, EMPTY_LOG)
  }

  // ---- Request ids -------------------------------------------------------------------------------

  lemma CurrentId(n: nat)
    ensures n < MAX_REQ_ID ==> n % MAX_REQ_ID == n
  {}

  lemma NextId(n: nat)
    ensures (n % MAX_REQ_ID + 1) % MAX_REQ_ID == (n + 1) % MAX_REQ_ID
  {}

  /** Two epochs less than 60000 apart share an id only if they are the same. */
  lemma SameId(a: nat, b: nat)
    requires a - MAX_REQ_ID < b < a + MAX_REQ_ID
    ensures a % MAX_REQ_ID == b % MAX_REQ_ID ==> a == b
  {}

  // ---- Sending a batch ---------------------------------------------------------------------------

  function Epoch(s: State): nat {
    |s.log.batches|
  }

  /** The keys that travel: all of `ukey`, or all but the one that overflowed it. */
  function Travelling(s: State, full: bool): seq<Key>
    requires s.pending != []
  {
    if full then s.pending[..|s.pending| - 1] else s.pending
  }

  function Kept(s: State, full: bool): seq<Key>
    requires s.pending != []
  {
    if full then [s.pending[|s.pending| - 1]] else []
  }

  /** `app_send` to the server: the datagram, unless the text or the datagram is too long. */
  function Accepted(id: nat, message: seq<byte>): seq<seq<byte>>
    requires id < WORD16
  {
    if |message| > MAX_PAYLOAD_LEN || !Fits(Framed(id, message)) then [] else [Framed(id, message)]
  }

  function SendLog(s: State, full: bool): Log
    requires Shaped(s) && s.pending != []
  {
    var keys := Travelling(s, full);
    s.log.(
      toServer := s.log.toServer + Accepted(s.reqId, Message(keys)),
      batches := s.log.batches + [Batch(s.reqId, keys)],
      cuts := s.log.cuts + [if full && s.log.regs != [] then |s.log.regs| - 1 else |s.log.regs|],
      debt := s.log.debt + 1,
      reissues := s.log.reissues + if s.reqId < Epoch(s) && s.keysRcvd[s.reqId] >= 0 then 1 else 0)
  }

  /** `construct_pkt_and_send_to_server`. */
  function SendBatch(s: State, full: bool): (t: State)
    requires Shaped(s)
    ensures Shaped(t)
  {
    if s.pending == [] then s
    else
      s.(pending := Kept(s, full),
         total := TotalSize(Kept(s, full)),
         keysSent := s.keysSent[s.reqId := |Travelling(s, full)|],
         keysRcvd := s.keysRcvd[s.reqId := 0],
         outstanding := (s.outstanding + 1) % WORD16,
         reqId := (s.reqId + 1) % MAX_REQ_ID,
         lastSend := s.clock(s.ticks),
         ticks := s.ticks + 1,
         log := SendLog(s, full))
  }

  // ---- A request from a client -------------------------------------------------------------------

  /** `insert_ukey_group`. */
  function InsertKey(s: State, key: Key): State {
    if key in s.pending then s
    else s.(pending := s.pending + [key], total := s.total + |key|)
  }

  /** The rows left after the ring slot about to be reused gives up its row. */
  function Evicted(s: State): map<Sig, Entry>
    requires Shaped(s)
  {
    s.table - {s.ring[s.ringPtr]}
  }

  function Victims(s: State): seq<Node>
    requires Shaped(s)
  {
    var v := s.ring[s.ringPtr];
    if v in s.table then s.table[v].chain else []
  }

  /** The body of the loop of `app_client_in` between `insert_ukey_group` and the size check. */
  function Register(s: State, ip: nat, reqId: u16, key: Key): (t: State)
    requires Shaped(s)
    ensures Shaped(t)
  {
    var sig := Signature(s.reqId, key);
    var node := Node(|s.log.regs|, ip, reqId);
    var regs := s.log.regs + [Reg(Epoch(s), key, node)];
    if sig in s.table then
      s.(keyHold := sig,
         table := s.table[sig := Entry([node] + s.table[sig].chain, 1)],
         log := s.log.(regs := regs))
    else
      s.(keyHold := sig,
         table := Evicted(s)[sig := Entry([node], 1)],
         ring := s.ring[s.ringPtr := sig],
         ringPtr := (s.ringPtr + 1) % MAP_ENTRIES,
         log := s.log.(regs := regs,
                       freed := s.log.freed + Victims(s),
                       made := s.log.made + [Made(Epoch(s), key, |s.log.regs|)],
                       born := s.log.born[sig := |s.log.made|]))
  }

  /** `total_ukey_size >= MAX_PAYLOAD_LEN - GETS_LEN - ukey_len + 1`. */
  predicate Overfull(s: State) {
    s.total >= MAX_PAYLOAD_LEN - |GETS| - |s.pending| + 1
  }

  /** One round of the loop of `app_client_in`. */
  function TakeKey(s: State, ip: nat, reqId: u16, key: Key): (t: State)
    requires Shaped(s)
    ensures Shaped(t)
  {
    var r := Register(InsertKey(s, key), ip, reqId, key);
    if Overfull(r) then SendBatch(r, true) else r
  }

  function TakeKeys(s: State, ip: nat, reqId: u16, keys: seq<Key>): (t: State)
    requires Shaped(s)
    ensures Shaped(t)
  {
    if keys == [] then s
    else TakeKey(TakeKeys(s, ip, reqId, keys[..|keys| - 1]), ip, reqId, keys[|keys| - 1])
  }

  /** `if (outstanding_req < MIN_OUTSTANDING_REQ) construct_pkt_and_send_to_server(false)`. */
  function SendIfIdle(s: State): (t: State)
    requires Shaped(s)
    ensures Shaped(t)
  {
    if s.outstanding < MIN_OUTSTANDING_REQ then SendBatch(s, false) else s
  }

  /** `app_client_in`. */
  function ClientIn(s: State, ip: nat, dg: seq<byte>): (t: State)
    requires Shaped(s) && IsDatagram(dg)
    ensures Shaped(t)
  {
    if !Fits(dg) then s
    else SendIfIdle(TakeKeys(s, ip, ReqIdOf(dg), RequestKeys(PayloadOf(dg))))
  }

  // ---- A reply from the server -----------------------------------------------------------------------

  /** `key_hold` and `last_key` after reading the reply. */
  function Named(s: State, dg: seq<byte>): (t: State)
    requires Shaped(s) && IsDatagram(dg)
    ensures Shaped(t)
  {
    match KeyOf(dg)
    case None => s
    case Some(k) =>
      var sig := Signature(ReqIdOf(dg), k);
      s.(keyHold := sig, lastKey := if DatagramCountOf(dg) > 1 then sig else s.lastKey)
  }

  /** The signature the reply is looked up by. */
  function Looked(s: State, dg: seq<byte>): Sig
    requires Shaped(s) && IsDatagram(dg)
  {
    if KeyOf(dg).Some? then Named(s, dg).keyHold else s.lastKey
  }

  /** One copy of the reply for each client of a chain. */
  function FanOut(dg: seq<byte>, chain: seq<Node>): (r: seq<Delivery>)
    requires IsDatagram(dg)
    ensures |r| == |chain|
  {
    if chain == [] then []
    else
      FanOut(dg, chain[..|chain| - 1])
      + [Delivery(chain[|chain| - 1].ip, Readdressed(dg, chain[|chain| - 1].reqId))]
  }

  /** A reply to an id that was never sent, or whose counter says closed, is not counted. */
  predicate Counts(s: State, dg: seq<byte>)
    requires Shaped(s) && IsDatagram(dg) && ReqIdOf(dg) < MAX_REQ_ID
  {
    s.keysRcvd[ReqIdOf(dg)] >= 0 && SequenceOf(dg) <= s.lastSeq
  }

  /** More than half of the keys of this id have been answered, this one included. */
  predicate Fulfils(s: State, dg: seq<byte>)
    requires Shaped(s) && IsDatagram(dg) && ReqIdOf(dg) < MAX_REQ_ID
  {
    s.keysRcvd[ReqIdOf(dg)] + 1 > s.keysSent[ReqIdOf(dg)] / 2
  }

  /** The state after closing an id, before anything is sent. */
  function Closed(s: State, id: nat): (t: State)
    requires Shaped(s) && id < MAX_REQ_ID
    ensures Shaped(t)
  {
    s.(keysRcvd := s.keysRcvd[id := -1],
       outstanding := (s.outstanding + WORD16 - 1) % WORD16,
       log := s.log.(debt := s.log.debt - 1, closings := s.log.closings + [Closing(id, Epoch(s))]))
  }

  /** The state after one more key of an id is answered. */
  function Answered(s: State, id: nat): (t: State)
    requires Shaped(s) && id < MAX_REQ_ID
    ensures Shaped(t)
  {
    s.(keysRcvd := s.keysRcvd[id := s.keysRcvd[id] + 1])
  }

  /** `keys_rcvd` and `outstanding_req`, with what is sent when there is room again. */
  function CountReply(s: State, dg: seq<byte>): (t: State)
    requires Shaped(s) && IsDatagram(dg) && ReqIdOf(dg) < MAX_REQ_ID
    ensures Shaped(t)
  {
    var id := ReqIdOf(dg);
    if !Counts(s, dg) then s
    else if Fulfils(s, dg) then SendIfIdle(Closed(s, id))
    else Answered(s, id)
  }

  /** The row of `key_hold` goes, and the chain of the row that was looked up is freed. */
  function Cleared(s: State, look: Sig): (t: State)
    requires Shaped(s) && look in s.table
    ensures Shaped(t)
  {
    s.(table := s.table - {s.keyHold},
       log := s.log.(freed := s.log.freed + s.table[look].chain, done := s.log.done + [Done(look, |s.log.regs|)]))
  }

  /** Counting datagrams against the row, or clearing it.  What is cleared is the row of `key_hold`,
      whatever row the reply was looked up in; if that is another row, a chain that has been freed stays in
      the table, and what the code does with it later is not described here. */
  function Tally(s: State, look: Sig, expected: nat): (t: State)
    requires Shaped(s) && look in s.table
    ensures Shaped(t)
  {
    var entry := s.table[look];
    if entry.count < expected then s.(table := s.table[look := entry.(count := entry.count + 1)])
    else Cleared(s, look)
  }

  /** The reply handed on to every client of the row it was looked up in. */
  function Fanned(s: State, dg: seq<byte>): (t: State)
    requires Shaped(s) && IsDatagram(dg) && Looked(s, dg) in s.table
    ensures Shaped(t)
  {
    var n := Named(s, dg);
    n.(log := n.log.(toClients := n.log.toClients + FanOut(dg, n.table[Looked(s, dg)].chain)))
  }

  /** The state just before the reply is tallied against its row. */
  function Counted(s: State, dg: seq<byte>): (t: State)
    requires Shaped(s) && IsDatagram(dg) && ReqIdOf(dg) < MAX_REQ_ID && Looked(s, dg) in s.table
    ensures Shaped(t) && t.table == s.table
  {
    CountReply(Fanned(s, dg), dg).(lastSeq := SequenceOf(dg))
  }

  /** `app_server_in`. */
  function ServerIn(s: State, dg: seq<byte>): (t: State)
    requires Shaped(s) && IsDatagram(dg) && ReqIdOf(dg) < MAX_REQ_ID
    ensures Shaped(t)
  {
    if !Fits(dg) then s
    else if Looked(s, dg) !in s.table then Named(s, dg)
    else Tally(Counted(s, dg), Looked(s, dg), DatagramCountOf(dg))
  }

  // ---- The timer ---------------------------------------------------------------------------------------

  /** `if (last_send_clock == 0) last_send_clock = clock()`. */
  function StartClock(s: State): (t: State)
    requires Shaped(s)
    ensures Shaped(t)
  {
    if s.lastSend == 0 then s.(lastSend := s.clock(s.ticks), ticks := s.ticks + 1) else s
  }

  /** Every request is taken for answered. */
  function Forgiven(s: State): (t: State)
    requires Shaped(s)
    ensures Shaped(t)
  {
    s.(outstanding := 0, keysRcvd := seq(MAX_REQ_ID, _ => -1), log := s.log.(debt := 0, reissues := 0))
  }

  /** After a call of clock() whose value is not kept. */
  function Ticked(s: State): (t: State)
    requires Shaped(s)
    ensures Shaped(t)
  {
    s.(ticks := s.ticks + 1)
  }

  /** The second half of `refresh_backlog`, reached with keys pending. */
  function CheckTimeout(s: State): (t: State)
    requires Shaped(s)
    ensures Shaped(t)
  {
    if s.clock(s.ticks) - s.lastSend >= TIMEOUT * CLOCKS_PER_MS then SendBatch(Forgiven(Ticked(s)), false)
    else Ticked(s)
  }

  /** `refresh_backlog`, with the program timeout switched off as in api.h. */
  function Refresh(s: State): (t: State)
    requires Shaped(s)
    ensures Shaped(t)
  {
    var started := StartClock(s);
    if started.pending == [] then started else CheckTimeout(started)
  }

  // ---- Runs -------------------------------------------------------------------------------------------

  datatype Event =
    | FromClient(ip: nat, dg: seq<byte>)
    | FromServer(dg: seq<byte>)
    | Timer

  /** What the C code needs of its inputs to stay inside its buffers. */
  predicate Legal(e: Event) {
    match e
    case FromClient(_, dg) => IsDatagram(dg) && (Fits(dg) ==> ValidRequest(PayloadOf(dg)))
    case FromServer(dg) => ValidReply(dg) && ReqIdOf(dg) < MAX_REQ_ID
    case Timer => true
  }

  function Step(s: State, e: Event): (t: State)
    requires Shaped(s) && Legal(e)
    ensures Shaped(t)
  {
    match e
    case FromClient(ip, dg) => ClientIn(s, ip, dg)
    case FromServer(dg) => ServerIn(s, dg)
    case Timer => Refresh(s)
  }

  predicate AllLegal(es: seq<Event>) {
    forall i :: 0 <= i < |es| ==> Legal(es[i])
  }

  function Run(clock: nat -> int, es: seq<Event>): (t: State)
    requires AllLegal(es)
    ensures Shaped(t)
  {
    if es == [] then Initial(clock)
    else Step(Run(clock, es[..|es| - 1]), es[|es| - 1])
  }
}
