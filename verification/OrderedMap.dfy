/** The behaviour a user of deprecated/map.h is promised: a map that remembers insertion order.

    The map is a sequence of pairs with pairwise different keys.  A run is a sequence of
    operations from the empty map; `Contents` and `Outcomes` say what it leaves and what each
    call hands back.  The second half of the module describes the same contents without any
    map at all, straight from the history of calls. */
module OrderedMap {
  import opened Bytes

  /** A key as the C code sees it: a pointer and the bytes it points to.  Comparison looks at the
      bytes; the pointer matters only to callbacks that free it. */
  datatype Key = Key(addr: nat, bytes: seq<byte>)

  datatype Pair = Pair(key: Key, value: nat)

  datatype Op =
    | Set(key: Key, value: nat)
    | GetSet(key: Key, value: nat)
    | SetFree(key: Key, value: nat)
    | Get(key: Key)
    | Remove(key: Key)
    | RemoveFree(key: Key)
    | Size

  /** What a call hands back: nothing, a flag with a value, the calls made to the callback, a count. */
  datatype Outcome =
    | Done
    | Found(present: bool, value: nat)
    | Called(calls: seq<Pair>)
    | Count(count: int)

  predicate Unlike(es: seq<Pair>, i: nat, j: nat)
    requires i < |es| && j < |es|
  {
    es[i].key.bytes != es[j].key.bytes
  }

  ghost predicate Distinct(es: seq<Pair>) {
    forall i, j :: 0 <= i < j < |es| ==> Unlike(es, i, j)
  }

  /** The position of a key, or |es| when it is absent. */
  function IndexOf(es: seq<Pair>, bytes: seq<byte>): (i: nat)
    ensures i <= |es|
    ensures i < |es| ==> es[i].key.bytes == bytes
    ensures forall j :: 0 <= j < i ==> es[j].key.bytes != bytes
  {
    if es == [] then 0
    else if es[0].key.bytes == bytes then 0
    else 1 + IndexOf(es[1..], bytes)
  }

  predicate Has(es: seq<Pair>, bytes: seq<byte>) {
    IndexOf(es, bytes) < |es|
  }

  function Next(es: seq<Pair>, op: Op): seq<Pair> {
    match op
    case Set(k, v) =>
      var i := IndexOf(es, k.bytes);
      if i < |es| then es[i := es[i].(value := v)] else es + [Pair(k, v)]
    case GetSet(k, v) =>
      if Has(es, k.bytes) then es else es + [Pair(k, v)]
    case SetFree(k, v) =>
      var i := IndexOf(es, k.bytes);
      if i < |es| then es[i := Pair(k, v)] else es + [Pair(k, v)]
    case Get(_) => es
    case Size => es
    case _ =>
      var i := IndexOf(es, op.key.bytes);
      if i < |es| then es[..i] + es[i + 1..] else es
  }

  function Answer(es: seq<Pair>, op: Op): Outcome {
    match op
    case Set(_, _) => Done
    case GetSet(k, v) =>
      var i := IndexOf(es, k.bytes);
      if i < |es| then Found(true, es[i].value) else Found(false, v)
    case SetFree(k, _) =>
      var i := IndexOf(es, k.bytes);
      Called(if i < |es| then [es[i]] else [])
    case Get(k) =>
      var i := IndexOf(es, k.bytes);
      if i < |es| then Found(true, es[i].value) else Found(false, 0)
    case Remove(_) => Done
    case RemoveFree(k) =>
      var i := IndexOf(es, k.bytes);
      Called(if i < |es| then [es[i]] else [])
    case Size => Count(|es|)
  }

  function Contents(ops: seq<Op>): seq<Pair> {
    if ops == [] then [] else Next(Contents(ops[..|ops| - 1]), ops[|ops| - 1])
  }

  function Outcomes(ops: seq<Op>): (r: seq<Outcome>)
    ensures |r| == |ops|
  {
    if ops == [] then []
    else
      var before := ops[..|ops| - 1];
      Outcomes(before) + [Answer(Contents(before), ops[|ops| - 1])]
  }

  // ---- Facts about positions ---------------------------------------------------------------

  lemma IndexUnique(es: seq<Pair>, i: nat)
    requires Distinct(es) && i < |es|
    ensures IndexOf(es, es[i].key.bytes) == i
  {
    forall j | 0 <= j < i
      ensures es[j].key.bytes != es[i].key.bytes
    {
      assert Unlike(es, j, i);
    }
  }

  lemma IndexAppend(es: seq<Pair>, p: Pair, bytes: seq<byte>)
    ensures IndexOf(es + [p], bytes) ==
            if Has(es, bytes) then IndexOf(es, bytes)
            else if p.key.bytes == bytes then |es| else |es| + 1
  {
    var whole := es + [p];
    var i := IndexOf(whole, bytes);
    if i < |es| {
      assert whole[i] == es[i];
    }
    if Has(es, bytes) {
      assert whole[IndexOf(es, bytes)] == es[IndexOf(es, bytes)];
    } else {
      assert whole[|es|] == p;
    }
  }

  lemma DistinctUpdate(es: seq<Pair>, i: nat, p: Pair)
    requires Distinct(es) && i < |es| && p.key.bytes == es[i].key.bytes
    ensures Distinct(es[i := p])
  {
    var es' := es[i := p];
    forall j, k | 0 <= j < k < |es'|
      ensures Unlike(es', j, k)
    {
      assert Unlike(es, j, k);
    }
  }

  lemma DistinctDrop(es: seq<Pair>, i: nat)
    requires Distinct(es) && i < |es|
    ensures Distinct(es[..i] + es[i + 1..])
  {
    var fewer := es[..i] + es[i + 1..];
    forall j, k | 0 <= j < k < |fewer|
      ensures Unlike(fewer, j, k)
    {
      assert Unlike(es, if j < i then j else j + 1, if k < i then k else k + 1);
    }
  }

  lemma DistinctAppend(es: seq<Pair>, p: Pair)
    requires Distinct(es) && !Has(es, p.key.bytes)
    ensures Distinct(es + [p])
  {
    var es' := es + [p];
    forall j, k | 0 <= j < k < |es'|
      ensures Unlike(es', j, k)
    {
      if k < |es| { assert Unlike(es, j, k); }
    }
  }

  lemma NextDistinct(es: seq<Pair>, op: Op)
    requires Distinct(es)
    ensures Distinct(Next(es, op))
  {
    if !op.Size? {
      var i := IndexOf(es, op.key.bytes);
      if i < |es| {
        if op.Set? { DistinctUpdate(es, i, es[i].(value := op.value)); }
        if op.SetFree? { DistinctUpdate(es, i, Pair(op.key, op.value)); }
        DistinctDrop(es, i);
      } else if Inserts(op) {
        DistinctAppend(es, Pair(op.key, op.value));
      }
    }
  }

  // ---- The same contents told from the history alone ------------------------------------------

  predicate Inserts(op: Op) {
    op.Set? || op.GetSet? || op.SetFree?
  }

  predicate Removes(op: Op) {
    op.Remove? || op.RemoveFree?
  }

  predicate About(op: Op, bytes: seq<byte>) {
    !op.Size? && op.key.bytes == bytes
  }

  /** The call that gave a key its present place in the order, or -1 while the key is absent. */
  function Born(ops: seq<Op>, bytes: seq<byte>): (b: int)
    ensures -1 <= b < |ops|
  {
    if ops == [] then -1
    else
      var n := |ops| - 1;
      var before := Born(ops[..n], bytes);
      if !About(ops[n], bytes) then before
      else if Removes(ops[n]) then -1
      else if Inserts(ops[n]) && before < 0 then n
      else before
  }

  /** The pair a present key carries: the newest value written since its birth, and the pointer
      given at birth unless a later `SetFree` replaced it. */
  function Written(ops: seq<Op>, bytes: seq<byte>): Pair
    requires Born(ops, bytes) >= 0
  {
    var n := |ops| - 1;
    var op := ops[n];
    if Born(ops, bytes) == n then Pair(op.key, op.value)
    else if !About(op, bytes) then Written(ops[..n], bytes)
    else if op.Set? then Written(ops[..n], bytes).(value := op.value)
    else if op.SetFree? then Pair(op.key, op.value)
    else Written(ops[..n], bytes)
  }

  /** Entry i is a present key with its newest pair. */
  predicate Current(es: seq<Pair>, ops: seq<Op>, i: nat)
    requires i < |es|
  {
    Born(ops, es[i].key.bytes) >= 0 && es[i] == Written(ops, es[i].key.bytes)
  }

  predicate Older(es: seq<Pair>, ops: seq<Op>, i: nat, j: nat)
    requires i < |es| && j < |es|
  {
    Born(ops, es[i].key.bytes) < Born(ops, es[j].key.bytes)
  }

  /** A present key is listed. */
  predicate Shown(es: seq<Pair>, ops: seq<Op>, bytes: seq<byte>) {
    Born(ops, bytes) >= 0 ==> Has(es, bytes)
  }

  /** `es` lists exactly the present keys, oldest birth first, each with its newest pair. */
  ghost predicate TellsHistory(es: seq<Pair>, ops: seq<Op>) {
    && (forall i {:trigger Current(es, ops, i)} :: 0 <= i < |es| ==> Current(es, ops, i))
    && (forall i, j {:trigger Older(es, ops, i, j)} :: 0 <= i < j < |es| ==> Older(es, ops, i, j))
    && (forall bytes {:trigger Shown(es, ops, bytes)} :: Shown(es, ops, bytes))
  }

  lemma SameBirthSameKey(ops: seq<Op>, a: seq<byte>, b: seq<byte>)
    requires Born(ops, a) == Born(ops, b) >= 0
    ensures a == b
  {}

  /** A key is in the list exactly when it has a birth. */
  lemma PresentIffBorn(es: seq<Pair>, ops: seq<Op>, bytes: seq<byte>)
    requires TellsHistory(es, ops)
    ensures Has(es, bytes) <==> Born(ops, bytes) >= 0
  {
    assert Shown(es, ops, bytes);
    if Has(es, bytes) { assert Current(es, ops, IndexOf(es, bytes)); }
  }

  /** A call leaves the history of every other key alone. */
  lemma OthersKeep(ops: seq<Op>, bytes: seq<byte>)
    requires ops != [] && !About(ops[|ops| - 1], bytes)
    ensures Born(ops, bytes) == Born(ops[..|ops| - 1], bytes)
    ensures Born(ops, bytes) >= 0 ==> Written(ops, bytes) == Written(ops[..|ops| - 1], bytes)
  {}

  /** An entry about another key than the last call's stays as it was. */
  lemma EntryKeeps(es: seq<Pair>, ops: seq<Op>, i: nat)
    requires ops != [] && i < |es| && Current(es, ops[..|ops| - 1], i)
    requires !About(ops[|ops| - 1], es[i].key.bytes)
    ensures Current(es, ops, i) && Born(ops, es[i].key.bytes) == Born(ops[..|ops| - 1], es[i].key.bytes)
  {
    OthersKeep(ops, es[i].key.bytes);
  }

  /** Different places hold different keys. */
  lemma PlacesDiffer(es: seq<Pair>, ops: seq<Op>, i: nat, j: nat)
    requires TellsHistory(es, ops) && i < |es| && j < |es| && i != j
    ensures es[i].key.bytes != es[j].key.bytes
  {
    if i < j { assert Older(es, ops, i, j); } else { assert Older(es, ops, j, i); }
  }

  /** A new key joins at the end. */
  lemma HistoryAppend(es: seq<Pair>, ops: seq<Op>)
    requires ops != []
    requires TellsHistory(es, ops[..|ops| - 1])
    requires Inserts(ops[|ops| - 1]) && !Has(es, ops[|ops| - 1].key.bytes)
    ensures TellsHistory(es + [Pair(ops[|ops| - 1].key, ops[|ops| - 1].value)], ops)
  {
    var n := |ops| - 1;
    var past, op := ops[..n], ops[n];
    var p := Pair(op.key, op.value);
    var es' := es + [p];
    PresentIffBorn(es, past, op.key.bytes);
    assert Born(ops, op.key.bytes) == n;
    forall i | 0 <= i < |es'|
      ensures Current(es', ops, i)
      ensures i < |es| ==> es'[i] == es[i] && Born(ops, es[i].key.bytes) == Born(past, es[i].key.bytes) < n
    {
      if i < |es| {
        assert Current(es, past, i);
        EntryKeeps(es, ops, i);
      }
    }
    forall i, j | 0 <= i < j < |es'| ensures Older(es', ops, i, j) {
      if j < |es| { assert Older(es, past, i, j); }
    }
    forall bytes ensures Shown(es', ops, bytes) {
      assert Shown(es, past, bytes);
      IndexAppend(es, p, bytes);
      if !About(op, bytes) { OthersKeep(ops, bytes); }
    }
  }

  /** Writing to a present key keeps its birth and changes what it carries. */
  lemma RewriteHistory(es: seq<Pair>, ops: seq<Op>, at: nat)
    requires ops != [] && at < |es|
    requires Inserts(ops[|ops| - 1]) && IndexOf(es, ops[|ops| - 1].key.bytes) == at
    requires Born(ops[..|ops| - 1], es[at].key.bytes) >= 0
    requires es[at] == Written(ops[..|ops| - 1], es[at].key.bytes)
    ensures var es' := Next(es, ops[|ops| - 1]);
      && |es'| == |es| && es'[at].key.bytes == es[at].key.bytes
      && Born(ops, es[at].key.bytes) == Born(ops[..|ops| - 1], es[at].key.bytes)
      && es'[at] == Written(ops, es[at].key.bytes)
  {}

  /** Writing to a present key leaves every key in its place. */
  lemma HistoryRewrite(es: seq<Pair>, es': seq<Pair>, ops: seq<Op>, at: nat)
    requires ops != [] && at < |es|
    requires TellsHistory(es, ops[..|ops| - 1])
    requires About(ops[|ops| - 1], es[at].key.bytes)
    requires |es'| == |es| && es' == es[at := es'[at]] && es'[at].key.bytes == es[at].key.bytes
    requires Born(ops, es[at].key.bytes) == Born(ops[..|ops| - 1], es[at].key.bytes) >= 0
    requires es'[at] == Written(ops, es[at].key.bytes)
    ensures TellsHistory(es', ops)
  {
    var past, op := ops[..|ops| - 1], ops[|ops| - 1];
    forall i | 0 <= i < |es|
      ensures es'[i].key.bytes == es[i].key.bytes
      ensures Born(ops, es'[i].key.bytes) == Born(past, es[i].key.bytes)
      ensures Current(es', ops, i)
    {
      assert Current(es, past, i);
      if i != at {
        PlacesDiffer(es, past, i, at);
        EntryKeeps(es, ops, i);
      }
    }
    forall i, j | 0 <= i < j < |es'| ensures Older(es', ops, i, j) { assert Older(es, past, i, j); }
    forall bytes ensures Shown(es', ops, bytes) {
      assert Shown(es, past, bytes);
      if About(op, bytes) {
        assert es'[at].key.bytes == bytes;
      } else {
        OthersKeep(ops, bytes);
        if Has(es, bytes) { assert es'[IndexOf(es, bytes)].key.bytes == bytes; }
      }
    }
  }

  /** Where the entries behind a gap come from. */
  function Behind(i: nat, at: nat): nat {
    if i < at then i else i + 1
  }

  /** Removing a present key closes the gap. */
  lemma HistoryDrop(es: seq<Pair>, es': seq<Pair>, ops: seq<Op>, at: nat)
    requires ops != [] && at < |es|
    requires TellsHistory(es, ops[..|ops| - 1])
    requires Removes(ops[|ops| - 1]) && at == IndexOf(es, ops[|ops| - 1].key.bytes)
    requires es' == es[..at] + es[at + 1..]
    ensures TellsHistory(es', ops)
  {
    var past, op := ops[..|ops| - 1], ops[|ops| - 1];
    forall i | 0 <= i < |es'|
      ensures es'[i] == es[Behind(i, at)] && Current(es', ops, i)
      ensures Born(ops, es'[i].key.bytes) == Born(past, es[Behind(i, at)].key.bytes)
    {
      assert Current(es, past, Behind(i, at));
      PlacesDiffer(es, past, Behind(i, at), at);
      EntryKeeps(es, ops, Behind(i, at));
    }
    forall i, j | 0 <= i < j < |es'| ensures Older(es', ops, i, j) {
      assert Older(es, past, Behind(i, at), Behind(j, at));
    }
    forall bytes ensures Shown(es', ops, bytes) {
      if Born(ops, bytes) >= 0 {
        OthersKeep(ops, bytes);
        assert Shown(es, past, bytes);
        var j := IndexOf(es, bytes);
        assert es'[if j < at then j else j - 1] == es[j];
      }
    }
  }

  /** A look-up, or the removal of an absent key. */
  lemma NothingChanges(es: seq<Pair>, ops: seq<Op>)
    requires ops != [] && TellsHistory(es, ops[..|ops| - 1]) && !Inserts(ops[|ops| - 1])
    requires Removes(ops[|ops| - 1]) ==> !Has(es, ops[|ops| - 1].key.bytes)
    ensures TellsHistory(es, ops)
  {
    var past, op := ops[..|ops| - 1], ops[|ops| - 1];
    if Removes(op) { PresentIffBorn(es, past, op.key.bytes); }
    forall i | 0 <= i < |es|
      ensures Current(es, ops, i) && Born(ops, es[i].key.bytes) == Born(past, es[i].key.bytes)
    {
      assert Current(es, past, i);
    }
    forall i, j | 0 <= i < j < |es| ensures Older(es, ops, i, j) { assert Older(es, past, i, j); }
    forall bytes ensures Shown(es, ops, bytes) { assert Shown(es, past, bytes); }
  }

  lemma HistoryStep(es: seq<Pair>, ops: seq<Op>)
    requires ops != []
    requires TellsHistory(es, ops[..|ops| - 1])
    ensures TellsHistory(Next(es, ops[|ops| - 1]), ops)
  {
    var past, op := ops[..|ops| - 1], ops[|ops| - 1];
    if Inserts(op) {
      if Has(es, op.key.bytes) {
        var at := IndexOf(es, op.key.bytes);
        assert Current(es, past, at);
        RewriteHistory(es, ops, at);
        HistoryRewrite(es, Next(es, op), ops, at);
      } else {
        HistoryAppend(es, ops);
      }
    } else if Removes(op) && Has(es, op.key.bytes) {
      var at := IndexOf(es, op.key.bytes);
      HistoryDrop(es, es[..at] + es[at + 1..], ops, at);
    } else {
      NothingChanges(es, ops);
    }
  }

  /** MAIN.  After any run the map holds exactly the keys inserted and not removed since, in the
      order of their latest (re-)insertion, each with the value written last.  In particular a key
      removed and added again stands at the end. */
  lemma {:induction false} ContentsTellHistory(ops: seq<Op>)
    ensures TellsHistory(Contents(ops), ops)
    ensures Distinct(Contents(ops))
  {
    if ops != [] {
      ContentsTellHistory(ops[..|ops| - 1]);
      NextDistinct(Contents(ops[..|ops| - 1]), ops[|ops| - 1]);
      HistoryStep(Contents(ops[..|ops| - 1]), ops);
    }
  }

  /** `TellsHistory` leaves no freedom: two lists that tell the same history are equal. */
  lemma HistoryIsUnique(xs: seq<Pair>, ys: seq<Pair>, ops: seq<Op>)
    requires TellsHistory(xs, ops) && TellsHistory(ys, ops)
    ensures xs == ys
  {
    SameLength(xs, ys, ops);
    SameLength(ys, xs, ops);
    SamePlaces(xs, ys, ops, |xs|);
  }

  /** The first n places agree. */
  lemma {:induction false} SamePlaces(xs: seq<Pair>, ys: seq<Pair>, ops: seq<Op>, n: nat)
    requires TellsHistory(xs, ops) && TellsHistory(ys, ops)
    requires n <= |xs| && n <= |ys|
    ensures xs[..n] == ys[..n]
  {
    if n > 0 {
      var m := n - 1;
      SamePlaces(xs, ys, ops, m);
      NotLater(xs, ys, ops, m);
      NotLater(ys, xs, ops, m);
      assert Current(xs, ops, m) && Current(ys, ops, m);
      SameBirthSameKey(ops, xs[m].key.bytes, ys[m].key.bytes);
      assert xs[..n] == xs[..m] + [xs[m]];
      assert ys[..n] == ys[..m] + [ys[m]];
    }
  }

  lemma FreshKey(xs: seq<Pair>, ops: seq<Op>, m: nat)
    requires TellsHistory(xs, ops) && m < |xs|
    ensures !Has(xs[..m], xs[m].key.bytes) && Born(ops, xs[m].key.bytes) >= 0
  {
    assert Current(xs, ops, m);
    forall i | 0 <= i < m
      ensures xs[i].key.bytes != xs[m].key.bytes
    {
      PlacesDiffer(xs, ops, i, m);
    }
  }

  /** With equal prefixes, the next key of `xs` cannot be younger than the next key of `ys`. */
  lemma NotLater(xs: seq<Pair>, ys: seq<Pair>, ops: seq<Op>, m: nat)
    requires TellsHistory(xs, ops) && TellsHistory(ys, ops)
    requires m < |xs| && m < |ys| && xs[..m] == ys[..m]
    ensures Born(ops, xs[m].key.bytes) <= Born(ops, ys[m].key.bytes)
  {
    var k := ys[m].key.bytes;
    var j := IndexOf(xs, k);
    assert Current(ys, ops, m) && Shown(xs, ops, k);
    forall i | 0 <= i < m
      ensures xs[i].key.bytes != k
    {
      assert xs[i] == xs[..m][i] == ys[..m][i] == ys[i];
      PlacesDiffer(ys, ops, i, m);
    }
    assert m <= j;
    if m < j { assert Older(xs, ops, m, j); }
  }

  lemma SameLength(xs: seq<Pair>, ys: seq<Pair>, ops: seq<Op>)
    requires TellsHistory(xs, ops) && TellsHistory(ys, ops)
    ensures |xs| <= |ys|
  {
    if |xs| > |ys| {
      SamePlaces(xs, ys, ops, |ys|);
      assert ys == xs[..|ys|];
      FreshKey(xs, ops, |ys|);
      PresentIffBorn(ys, ops, xs[|ys|].key.bytes);
      assert false;
    }
  }

  // ---- The answers told from the history alone -------------------------------------------------

  lemma {:induction false} OutcomeAt(ops: seq<Op>, n: nat)
    requires n < |ops|
    ensures Outcomes(ops)[n] == Answer(Contents(ops[..n]), ops[n])
  {
    var last := |ops| - 1;
    if n < last {
      OutcomeAt(ops[..last], n);
      assert ops[..last][..n] == ops[..n];
    }
  }

  lemma {:induction false} BirthIsOf(ops: seq<Op>, bytes: seq<byte>)
    requires Born(ops, bytes) >= 0
    ensures var b := Born(ops, bytes); Inserts(ops[b]) && ops[b].key.bytes == bytes
  {
    var n := |ops| - 1;
    if Born(ops, bytes) < n { BirthIsOf(ops[..n], bytes); }
  }

  predicate Keyed(ops: seq<Op>, i: nat)
    requires i < |ops|
  {
    !ops[i].Size? && Born(ops, ops[i].key.bytes) >= 0
  }

  /** The keys with a birth. */
  function Present(ops: seq<Op>): (r: set<seq<byte>>)
    ensures forall bytes :: bytes in r <==> Born(ops, bytes) >= 0
  {
    var r := set i | 0 <= i < |ops| && Keyed(ops, i) :: ops[i].key.bytes;
    assert forall bytes :: Born(ops, bytes) >= 0 ==> bytes in r by {
      forall bytes | Born(ops, bytes) >= 0
        ensures bytes in r
      {
        BirthIsOf(ops, bytes);
        assert Keyed(ops, Born(ops, bytes));
      }
    }
    r
  }

  /** Pairwise different keys are as many as the places they stand in. */
  lemma {:induction false} DistinctSize(es: seq<Pair>) returns (keys: set<seq<byte>>)
    requires Distinct(es)
    ensures |keys| == |es| && forall bytes :: bytes in keys <==> Has(es, bytes)
  {
    keys := {};
    if es != [] {
      var n := |es| - 1;
      assert forall i, j :: 0 <= i < j < n ==> Unlike(es, i, j) ==> Unlike(es[..n], i, j);
      keys := DistinctSize(es[..n]);
      IndexUnique(es, n);
      assert !Has(es[..n], es[n].key.bytes);
      forall bytes
        ensures Has(es, bytes) <==> Has(es[..n], bytes) || bytes == es[n].key.bytes
      {
        assert es == es[..n] + [es[n]];
        IndexAppend(es[..n], es[n], bytes);
      }
      keys := keys + {es[n].key.bytes};
    }
  }

  lemma SizeTold(ops: seq<Op>)
    ensures |Contents(ops)| == |Present(ops)|
  {
    var es := Contents(ops);
    ContentsTellHistory(ops);
    var keys := DistinctSize(es);
    forall bytes ensures bytes in keys <==> bytes in Present(ops) {
      PresentIffBorn(es, ops, bytes);
    }
    assert keys == Present(ops);
  }

  /** Where a key stands, and with what. */
  lemma LookedUp(ops: seq<Op>, bytes: seq<byte>)
    ensures var es := Contents(ops);
      && (Has(es, bytes) <==> Born(ops, bytes) >= 0)
      && (Born(ops, bytes) >= 0 ==> es[IndexOf(es, bytes)] == Written(ops, bytes))
  {
    var es := Contents(ops);
    ContentsTellHistory(ops);
    PresentIffBorn(es, ops, bytes);
    if Has(es, bytes) { assert Current(es, ops, IndexOf(es, bytes)); }
  }

  /** MAIN.  What every call of a run hands back, from the calls before it alone: a look-up the newest value of
      a present key, and 0 or the value offered for an absent one; the callback sees exactly the pair a present
      key carried; and the size is the number of keys inserted and not removed since. */
  lemma AnswersTellHistory(ops: seq<Op>, n: nat)
    requires n < |ops|
    ensures var past, op, r := ops[..n], ops[n], Outcomes(ops)[n];
      if op.Size? then r == Count(|Present(past)|)
      else if op.Set? || op.Remove? then r == Done
      else
        var there := Born(past, op.key.bytes) >= 0;
        && (op.Get? && !there ==> r == Found(false, 0))
        && (op.GetSet? && !there ==> r == Found(false, op.value))
        && (op.Get? || op.GetSet? ==> there ==> r == Found(true, Written(past, op.key.bytes).value))
        && (op.SetFree? || op.RemoveFree? ==>
              r == Called(if there then [Written(past, op.key.bytes)] else []))
  {
    OutcomeAt(ops, n);
    if ops[n].Size? { SizeTold(ops[..n]); } else { LookedUp(ops[..n], ops[n].key.bytes); }
  }
}
