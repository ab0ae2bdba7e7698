/** How answered keys are counted: a new value is recognised by a sequence number that does not rise. */
module Replies {
  import opened Bytes
  import opened Text
  import opened Wire
  import opened Protocol
  import opened Steering

  /** The reply finds its row. */
  predicate Finds(s: State, dg: seq<byte>)
    requires Shaped(s)
  {
    IsDatagram(dg) && Fits(dg) && ReqIdOf(dg) < MAX_REQ_ID && Looked(s, dg) in s.table
  }

  /** Some of the datagrams of one value, in order; others may be lost. */
  predicate Ascending(dgs: seq<seq<byte>>)
    requires Usable(dgs)
  {
    forall i :: 0 < i < |dgs| ==> SequenceOf(dgs[i - 1]) < SequenceOf(dgs[i])
  }

  predicate Answers(dgs: seq<seq<byte>>, id: nat)
    requires Usable(dgs)
  {
    forall i :: 0 <= i < |dgs| ==> ReqIdOf(dgs[i]) == id
  }

  ghost predicate AllFind(s: State, dgs: seq<seq<byte>>)
    requires Shaped(s) && Usable(dgs)
  {
    if dgs == [] then true
    else
      var front := dgs[..|dgs| - 1];
      AllFind(s, front) && Finds(Deliver(s, front), dgs[|dgs| - 1])
  }

  /** The counter of an id after one more value is counted: closed once more than half are. */
  function Raised(count: int, sent: nat): int {
    if count + 1 > sent / 2 then -1 else count + 1
  }

  /** An id that is open is not the one about to be sent again. */
  predicate Apart(s: State, id: nat)
    requires Shaped(s) && id < MAX_REQ_ID
  {
    s.keysRcvd[id] >= 0 ==> id != s.reqId
  }

  lemma OneDatagram(s: State, dg: seq<byte>)
    requires Shaped(s) && Finds(s, dg) && Apart(s, ReqIdOf(dg))
    ensures var t, id := ServerIn(s, dg), ReqIdOf(dg);
      && t.lastSeq == SequenceOf(dg)
      && t.keysSent[id] == s.keysSent[id]
      && t.keysRcvd[id] ==
           (if s.keysRcvd[id] >= 0 && SequenceOf(dg) <= s.lastSeq then Raised(s.keysRcvd[id], s.keysSent[id])
            else s.keysRcvd[id])
      && Apart(t, id)
  {
    CountEffect(Fanned(s, dg), dg);
  }

  lemma CountEffect(s: State, dg: seq<byte>)
    requires Shaped(s) && IsDatagram(dg) && ReqIdOf(dg) < MAX_REQ_ID && Apart(s, ReqIdOf(dg))
    ensures var t, id := CountReply(s, dg), ReqIdOf(dg);
      && t.keysSent[id] == s.keysSent[id]
      && t.keysRcvd[id] ==
           (if Counts(s, dg) then Raised(s.keysRcvd[id], s.keysSent[id]) else s.keysRcvd[id])
      && Apart(t, id)
  {}

  /** The counter after the surviving datagrams of one value. */
  function AfterValue(count: int, sent: nat, lastSeq: nat, firstSeq: nat): int {
    if count >= 0 && firstSeq <= lastSeq then Raised(count, sent) else count
  }

  /** MAIN.  Whatever datagrams of a value are lost, the value is counted at most once while its id is open,
      and exactly once when its first datagram arrives (sequence number 0 never rises). */
  lemma {:induction false} ValueCountsOnce(s: State, dgs: seq<seq<byte>>, id: nat)
    requires Shaped(s) && id < MAX_REQ_ID && Apart(s, id)
    requires dgs != [] && Usable(dgs) && Answers(dgs, id) && Ascending(dgs) && AllFind(s, dgs)
    ensures var t, last := Deliver(s, dgs), |dgs| - 1;
      && t.lastSeq == SequenceOf(dgs[last])
      && t.keysSent[id] == s.keysSent[id] && Apart(t, id)
      && t.keysRcvd[id] == AfterValue(s.keysRcvd[id], s.keysSent[id], s.lastSeq, SequenceOf(dgs[0]))
  {
    var n := |dgs| - 1;
    var front := dgs[..n];
    if n > 0 {
      assert Ascending(front) && Answers(front, id);
      ValueCountsOnce(s, front, id);
      assert front[n - 1] == dgs[n - 1];
    } else {
      assert Deliver(s, front) == s;
    }
    OneDatagram(Deliver(s, front), dgs[n]);
  }

  // ---- What happens between the values of an id -------------------------------------------------------------

  /** No batch sent from s to t has this id. */
  ghost predicate Unsent(s: State, t: State, id: nat) {
    && s.log.batches <= t.log.batches
    && forall b :: Epoch(s) <= b < Epoch(t) ==> t.log.batches[b].id != id
  }

  /** Batches are only added, and the counters of an id change only when a batch is sent under it. */
  ghost predicate LeavesId(s: State, t: State, id: nat)
    requires Shaped(s) && Shaped(t) && id < MAX_REQ_ID
  {
    && s.log.batches <= t.log.batches
    && (Unsent(s, t, id) ==> t.keysRcvd[id] == s.keysRcvd[id] && t.keysSent[id] == s.keysSent[id])
  }

  lemma LeavesOn(s: State, t: State, u: State, id: nat)
    requires Shaped(s) && Shaped(t) && Shaped(u) && id < MAX_REQ_ID
    requires LeavesId(s, t, id) && LeavesId(t, u, id)
    ensures LeavesId(s, u, id)
  {
    if Unsent(s, u, id) {
      assert forall b :: Epoch(s) <= b < Epoch(t) ==> t.log.batches[b] == u.log.batches[b];
      assert Unsent(s, t, id) && Unsent(t, u, id);
    }
  }

  lemma SendLeaves(s: State, t: State, full: bool, id: nat)
    requires Shaped(s) && id < MAX_REQ_ID && t == SendBatch(s, full)
    ensures LeavesId(s, t, id)
  {
    if s.pending != [] { assert t.log.batches[Epoch(s)].id == s.reqId; }
  }

  lemma TakeKeyLeaves(s: State, ip: nat, reqId: u16, key: Key, id: nat)
    requires Shaped(s) && id < MAX_REQ_ID
    ensures LeavesId(s, TakeKey(s, ip, reqId, key), id)
  {
    var r := Register(InsertKey(s, key), ip, reqId, key);
    assert LeavesId(s, r, id);
    SendLeaves(r, SendBatch(r, true), true, id);
    if Overfull(r) { LeavesOn(s, r, SendBatch(r, true), id); }
  }

  lemma {:induction false} TakeKeysLeave(s: State, ip: nat, reqId: u16, keys: seq<Key>, id: nat)
    requires Shaped(s) && id < MAX_REQ_ID
    ensures LeavesId(s, TakeKeys(s, ip, reqId, keys), id)
  {
    if keys != [] {
      var front := TakeKeys(s, ip, reqId, keys[..|keys| - 1]);
      TakeKeysLeave(s, ip, reqId, keys[..|keys| - 1], id);
      TakeKeyLeaves(front, ip, reqId, keys[|keys| - 1], id);
      LeavesOn(s, front, TakeKeys(s, ip, reqId, keys), id);
    }
  }

  lemma IdleLeaves(s: State, t: State, id: nat)
    requires Shaped(s) && Shaped(t) && id < MAX_REQ_ID && LeavesId(s, t, id)
    ensures LeavesId(s, SendIfIdle(t), id)
  {
    SendLeaves(t, SendBatch(t, false), false, id);
    if t.outstanding < MIN_OUTSTANDING_REQ { LeavesOn(s, t, SendBatch(t, false), id); }
  }

  lemma CountLeaves(s: State, dg: seq<byte>, id: nat)
    requires Shaped(s) && IsDatagram(dg) && ReqIdOf(dg) < MAX_REQ_ID && id < MAX_REQ_ID && ReqIdOf(dg) != id
    ensures LeavesId(s, CountReply(s, dg), id)
  {
    IdleLeaves(s, Closed(s, ReqIdOf(dg)), id);
  }

  lemma ServerLeaves(s: State, dg: seq<byte>, id: nat)
    requires Shaped(s) && IsDatagram(dg) && ReqIdOf(dg) < MAX_REQ_ID && id < MAX_REQ_ID && ReqIdOf(dg) != id
    ensures LeavesId(s, ServerIn(s, dg), id)
  {
    if Fits(dg) && Looked(s, dg) in s.table {
      CountLeaves(Fanned(s, dg), dg, id);
    }
  }

  /** The timer is about to take every request for answered. */
  predicate Late(s: State)
    requires Shaped(s)
  {
    var started := StartClock(s);
    && started.pending != []
    && started.clock(started.ticks) - started.lastSend >= TIMEOUT * CLOCKS_PER_MS
  }

  /** A request, a reply to another id or a timer call in time, and no batch goes out under this id. */
  ghost predicate Aside(s: State, e: Event, id: nat)
    requires Shaped(s)
  {
    && Legal(e) && Unsent(s, Step(s, e), id)
    && (e.FromServer? ==> ReqIdOf(e.dg) != id)
    && (e.Timer? ==> !Late(s))
  }

  lemma AsideLeaves(s: State, e: Event, id: nat)
    requires Shaped(s) && id < MAX_REQ_ID && Aside(s, e, id)
    ensures var t := Step(s, e); t.keysRcvd[id] == s.keysRcvd[id] && t.keysSent[id] == s.keysSent[id]
  {
    match e
    case FromClient(ip, dg) =>
      if Fits(dg) {
        var keys := RequestKeys(PayloadOf(dg));
        TakeKeysLeave(s, ip, ReqIdOf(dg), keys, id);
        IdleLeaves(s, TakeKeys(s, ip, ReqIdOf(dg), keys), id);
      }
    case FromServer(dg) => ServerLeaves(s, dg, id);
    case Timer =>
  }

  // ---- All the values of a batch --------------------------------------------------------------------------

  /** A value for the id in question, as far as it arrives, or something else. */
  datatype Arrival = Answer(dgs: seq<seq<byte>>) | Between(event: Event)

  /** Values for one id, with other events between them. */
  ghost predicate Arrive(s: State, arrivals: seq<Arrival>, id: nat)
    requires Shaped(s) && id < MAX_REQ_ID
    decreases |arrivals|, 1
  {
    if arrivals == [] then true
    else
      var front, a := arrivals[..|arrivals| - 1], arrivals[|arrivals| - 1];
      && Arrive(s, front, id)
      && match a
         case Answer(v) =>
           && v != [] && Usable(v) && Answers(v, id) && Ascending(v)
           && AllFind(After(s, front, id), v) && Apart(After(s, front, id), id)
         case Between(e) => Aside(After(s, front, id), e, id)
  }

  ghost function After(s: State, arrivals: seq<Arrival>, id: nat): (t: State)
    requires Shaped(s) && id < MAX_REQ_ID && Arrive(s, arrivals, id)
    ensures Shaped(t)
    decreases |arrivals|, 2
  {
    if arrivals == [] then s
    else
      var before, a := After(s, arrivals[..|arrivals| - 1], id), arrivals[|arrivals| - 1];
      match a
      case Answer(v) => Deliver(before, v)
      case Between(e) => Step(before, e)
  }

  /** How many values arrive. */
  function Values(arrivals: seq<Arrival>): nat {
    if arrivals == [] then 0
    else Values(arrivals[..|arrivals| - 1]) + if arrivals[|arrivals| - 1].Answer? then 1 else 0
  }

  /** Every value's first datagram arrives. */
  predicate FirstsArrive(arrivals: seq<Arrival>) {
    forall i :: 0 <= i < |arrivals| && arrivals[i].Answer? ==> FirstArrives(arrivals[i].dgs)
  }

  predicate FirstArrives(dgs: seq<seq<byte>>) {
    dgs != [] && IsDatagram(dgs[0]) && SequenceOf(dgs[0]) == 0
  }

  /** What m values have made of the counter of a batch of n keys. */
  predicate Reached(counter: int, n: nat, m: nat, whole: bool) {
    && -1 <= counter <= n / 2 && counter <= m
    && (counter == -1 ==> m > n / 2)
    && (whole ==> counter == if m > n / 2 then -1 else m)
  }

  lemma ReachedOn(counter: int, n: nat, m: nat, whole: bool, counted: bool)
    requires Reached(counter, n, m, whole) && (whole ==> counted)
    ensures Reached(if counter >= 0 && counted then Raised(counter, n) else counter, n, m + 1, whole)
  {}

  /** MAIN.  From a freshly issued id with n keys, whatever requests, replies to other ids and timer calls come
      between: m values never raise the counter beyond m, close the id only if m is more than half of n, and
      when no first datagram is lost close it exactly then.  Since n / 2 + 1 <= n for n > 0, n values whose
      first datagrams arrive always close a batch of n keys. */
  lemma {:induction false} BatchCloses(s: State, arrivals: seq<Arrival>, id: nat)
    requires Shaped(s) && id < MAX_REQ_ID
    requires s.keysRcvd[id] == 0 && s.keysSent[id] > 0 && Arrive(s, arrivals, id)
    ensures var t, n, m := After(s, arrivals, id), s.keysSent[id], Values(arrivals);
      && t.keysSent[id] == n
      && Reached(t.keysRcvd[id], n, m, FirstsArrive(arrivals))
      && (FirstsArrive(arrivals) && m >= n ==> t.keysRcvd[id] == -1)
  {
    if arrivals != [] {
      var front, a := arrivals[..|arrivals| - 1], arrivals[|arrivals| - 1];
      BatchCloses(s, front, id);
      assert FirstsArrive(arrivals) ==> FirstsArrive(front);
      OneArrival(After(s, front, id), After(s, arrivals, id), a, id, s.keysSent[id], Values(front),
                 FirstsArrive(arrivals));
    }
  }

  lemma OneArrival(s: State, t: State, a: Arrival, id: nat, n: nat, m: nat, whole: bool)
    requires Shaped(s) && id < MAX_REQ_ID && s.keysSent[id] == n && Reached(s.keysRcvd[id], n, m, whole)
    requires a.Answer? ==>
      && a.dgs != [] && Usable(a.dgs) && Answers(a.dgs, id) && Ascending(a.dgs)
      && AllFind(s, a.dgs) && Apart(s, id) && t == Deliver(s, a.dgs) && (whole ==> FirstArrives(a.dgs))
    requires a.Between? ==> Aside(s, a.event, id) && t == Step(s, a.event)
    ensures Shaped(t) && t.keysSent[id] == n
    ensures Reached(t.keysRcvd[id], n, if a.Answer? then m + 1 else m, whole)
  {
    match a
    case Answer(v) =>
      ValueCountsOnce(s, v, id);
      ReachedOn(s.keysRcvd[id], n, m, whole, SequenceOf(v[0]) <= s.lastSeq);
    case Between(e) => AsideLeaves(s, e, id);
  }
}
