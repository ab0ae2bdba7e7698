/** The text carried by requests and replies: what middlebox/src/api.c reads out of it and how it
    writes it. */
module Text {
  import opened Bytes

  type Key = seq<byte>

  const SPACE: byte := 32
  const GETS: seq<byte> := [103, 101, 116, 115]
  const VALUE: seq<byte> := [86, 65, 76, 85, 69]

  const MAX_KEY_PER_PACKET := 722
  const MAX_KEY_LENGTH := 1443
  /** The longest key whose signature still fits a row of MAX_KEY_LENGTH characters. */
  const LONGEST_KEY := 1436

  // ---- Characters and words ------------------------------------------------------------------

  predicate Without(s: seq<byte>, c: byte) {
    forall i :: 0 <= i < |s| ==> s[i] != c
  }

  /** A key the middlebox can keep: not empty, no space, no NUL, short enough. */
  predicate ValidKey(k: Key) {
    0 < |k| <= LONGEST_KEY && Without(k, SPACE) && Without(k, 0)
  }

  predicate ValidKeys(ks: seq<Key>) {
    forall i :: 0 <= i < |ks| ==> ValidKey(ks[i])
  }

  /** What `strlen` and `strcpy` see of a buffer. */
  function CString(s: seq<byte>): seq<byte> {
    if s == [] || s[0] == 0 then [] else [s[0]] + CString(s[1..])
  }

  lemma {:induction false} CStringTo(s: seq<byte>, j: nat)
    requires j < |s| && s[j] == 0 && Without(s[..j], 0)
    ensures CString(s) == s[..j]
  {
    if j > 0 {
      assert s[0] == s[..j][0];
      assert s[1..][..j - 1] == s[..j][1..];
      CStringTo(s[1..], j - 1);
    }
  }

  // ---- Requests --------------------------------------------------------------------------------

  /** Everything after the first space. */
  function AfterCommand(p: seq<byte>): seq<byte> {
    if p == [] then [] else if p[0] == SPACE then p[1..] else AfterCommand(p[1..])
  }

  /** The pieces between spaces; there is always at least one. */
  function Segments(q: seq<byte>): (r: seq<seq<byte>>)
    ensures |r| > 0
  {
    if q == [] then [[]]
    else
      var n := |q| - 1;
      var before := Segments(q[..n]);
      if q[n] == SPACE then before + [[]]
      else before[|before| - 1 := before[|before| - 1] + [q[n]]]
  }

  /** An empty piece stands for the word before it: the buffer was never overwritten. */
  function Filled(segs: seq<seq<byte>>): (r: seq<Key>)
    ensures |r| == |segs|
  {
    if segs == [] then []
    else
      var n := |segs| - 1;
      var before := Filled(segs[..n]);
      before + [if segs[n] == [] && n > 0 then before[n - 1] else segs[n]]
  }

  /** The keys `strip_keys` finds in a request. */
  function RequestKeys(payload: seq<byte>): seq<Key> {
    Filled(Segments(AfterCommand(payload)))
  }

  /** Pieces that fit the fixed buffers of `strip_keys`, with a first word to put into the empty one. */
  predicate Readable(segs: seq<seq<byte>>) {
    && segs != [] && segs[0] != []
    && forall i :: 0 <= i < |segs| ==> PieceFits(segs, i)
  }

  predicate PieceFits(segs: seq<seq<byte>>, i: nat)
    requires i < |segs|
  {
    segs[i] == [] || ValidKey(segs[i])
  }

  predicate ValidRequest(payload: seq<byte>) {
    var segs := Segments(AfterCommand(payload));
    |segs| <= MAX_KEY_PER_PACKET && Readable(segs)
  }

  lemma {:induction false} FilledValid(segs: seq<seq<byte>>)
    requires Readable(segs)
    ensures ValidKeys(Filled(segs))
  {
    var n := |segs| - 1;
    assert PieceFits(segs, n);
    if n > 0 {
      assert forall i :: 0 <= i < n ==> PieceFits(segs, i) ==> PieceFits(segs[..n], i);
      FilledValid(segs[..n]);
    }
  }

  lemma RequestKeysValid(payload: seq<byte>)
    requires ValidRequest(payload)
    ensures RequestKeys(payload) != [] && ValidKeys(RequestKeys(payload))
  {
    FilledValid(Segments(AfterCommand(payload)));
  }

  /** The pieces of a prefix are the pieces of the whole, the last one perhaps cut short. */
  lemma {:induction false} PrefixSegments(q: seq<byte>, t: nat)
    requires t <= |q|
    ensures var a, b := Segments(q[..t]), Segments(q);
      |a| <= |b| && a[..|a| - 1] == b[..|a| - 1] && a[|a| - 1] <= b[|a| - 1]
  {
    if t == |q| {
      assert q[..t] == q;
    } else {
      var n := |q| - 1;
      PrefixSegments(q[..n], t);
      assert q[..n][..t] == q[..t];
    }
  }

  /** One more character of the request. */
  lemma NextSegments(q: seq<byte>, t: nat)
    requires t < |q|
    ensures var a := Segments(q[..t]);
      Segments(q[..t + 1]) ==
      if q[t] == SPACE then a + [[]] else a[|a| - 1 := a[|a| - 1] + [q[t]]]
  {
    assert q[..t + 1][..t] == q[..t];
  }

  /** A space inside the request closes the current piece for good. */
  lemma ClosedSegment(q: seq<byte>, t: nat)
    requires t <= |q| && (t < |q| ==> q[t] == SPACE)
    ensures var a, b := Segments(q[..t]), Segments(q);
      |a| <= |b| && a[|a| - 1] == b[|a| - 1]
  {
    PrefixSegments(q, t);
    if t < |q| {
      NextSegments(q, t);
      PrefixSegments(q, t + 1);
      var c, b := Segments(q[..t + 1]), Segments(q);
      var last := |c| - 1;
      assert forall i :: 0 <= i < last ==> c[i] == c[..last][i] == b[..last][i] == b[i];
    } else {
      assert q[..t] == q;
    }
  }

  /** The word buffer and the rows filled so far, t characters into the keys. */
  ghost predicate Reading(q: seq<byte>, t: nat, keys: seq<Key>, buffer: seq<byte>, j: nat)
    requires t <= |q|
  {
    var segs := Segments(q[..t]);
    var m := |segs| - 1;
    && keys == Filled(segs)[..m]
    && |buffer| == MAX_KEY_LENGTH && j == |segs[m]| < MAX_KEY_LENGTH
    && buffer[..j] == segs[m]
    && (j > 0 ==> buffer[j] == 0)
    && (j == 0 && m > 0 ==> CString(buffer) == keys[m - 1])
  }

  /** The word about to be copied out of the buffer is the next key. */
  lemma WordRead(q: seq<byte>, t: nat, keys: seq<Key>, buffer: seq<byte>, j: nat)
    requires t <= |q| && (t < |q| ==> q[t] == SPACE)
    requires Reading(q, t, keys, buffer, j)
    requires Readable(Segments(q))
    ensures keys + [CString(buffer)] == Filled(Segments(q[..t]))
  {
    var segs := Segments(q[..t]);
    ClosedSegment(q, t);
    assert PieceFits(Segments(q), |segs| - 1);
    if j > 0 {
      CStringTo(buffer, j);
    }
  }

  lemma SpaceRead(q: seq<byte>, t: nat, keys: seq<Key>, buffer: seq<byte>, j: nat)
    requires t < |q| && q[t] == SPACE
    requires Reading(q, t, keys, buffer, j)
    requires keys + [CString(buffer)] == Filled(Segments(q[..t]))
    ensures Reading(q, t + 1, keys + [CString(buffer)], buffer, 0)
  {
    NextSegments(q, t);
    var segs := Segments(q[..t]);
    assert (segs + [[]])[..|segs|] == segs;
  }

  lemma LetterRead(q: seq<byte>, t: nat, keys: seq<Key>, buffer: seq<byte>, next: seq<byte>, j: nat)
    requires t < |q| && q[t] != SPACE
    requires Reading(q, t, keys, buffer, j) && j + 1 < MAX_KEY_LENGTH
    requires next == buffer[j := q[t]][j + 1 := 0]
    ensures Reading(q, t + 1, keys, next, j + 1)
  {
    NextSegments(q, t);
    var segs := Segments(q[..t]);
    var segs' := Segments(q[..t + 1]);
    assert segs'[..|segs| - 1] == segs[..|segs| - 1];
  }

  lemma WordFits(q: seq<byte>, t: nat, keys: seq<Key>, buffer: seq<byte>, j: nat)
    requires t < |q| && q[t] != SPACE && Readable(Segments(q))
    requires Reading(q, t, keys, buffer, j)
    ensures |buffer| == MAX_KEY_LENGTH && j + 1 < MAX_KEY_LENGTH
  {
    NextSegments(q, t);
    PrefixSegments(q, t + 1);
    assert PieceFits(Segments(q), |Segments(q[..t])| - 1);
  }

  lemma {:induction false} SkipCommand(p: seq<byte>, i: nat)
    requires i <= |p| && Without(p[..i], SPACE)
    ensures i < |p| && p[i] == SPACE ==> AfterCommand(p) == p[i + 1..]
    ensures i == |p| ==> AfterCommand(p) == []
  {
    if i > 0 {
      assert p[0] == p[..i][0];
      assert p[1..][..i - 1] == p[..i][1..];
      SkipCommand(p[1..], i - 1);
      assert i < |p| ==> p[1..][i..] == p[i + 1..];
    }
  }

  /** `strip_keys`, with its word buffer. */
  method StripKeys(payload: seq<byte>) returns (keys: seq<Key>)
    requires ValidRequest(payload)
    ensures keys == RequestKeys(payload)
  {
    var i := 0;
    while i < |payload| && payload[i] != SPACE
      invariant i <= |payload| && Without(payload[..i], SPACE)
    {
      i := i + 1;
    }
    SkipCommand(payload, i);
    keys := ReadWords(payload, i + 1);
  }

  /** `buffer[j] = payload[i]; buffer[++j] = 0`. */
  method PutLetter(buffer: array<byte>, j: nat, c: byte)
    requires j + 1 < buffer.Length
    modifies buffer
    ensures buffer[..] == old(buffer[..])[j := c][j + 1 := 0]
  {
    buffer[j] := c;
    buffer[j + 1] := 0;
  }

  /** A word before a space is copied out. */
  lemma SpaceStep(q: seq<byte>, t: nat, keys: seq<Key>, buffer: seq<byte>, j: nat)
    requires t < |q| && q[t] == SPACE && Readable(Segments(q)) && Reading(q, t, keys, buffer, j)
    ensures Reading(q, t + 1, keys + [CString(buffer)], buffer, 0)
  {
    WordRead(q, t, keys, buffer, j);
    SpaceRead(q, t, keys, buffer, j);
  }

  /** A letter joins the word. */
  lemma LetterStep(q: seq<byte>, t: nat, keys: seq<Key>, buffer: seq<byte>, j: nat)
    requires t < |q| && q[t] != SPACE && Readable(Segments(q)) && Reading(q, t, keys, buffer, j)
    ensures |buffer| == MAX_KEY_LENGTH && j + 1 < MAX_KEY_LENGTH
    ensures Reading(q, t + 1, keys, buffer[j := q[t]][j + 1 := 0], j + 1)
  {
    WordFits(q, t, keys, buffer, j);
    LetterRead(q, t, keys, buffer, buffer[j := q[t]][j + 1 := 0], j);
  }

  /** The last word is copied out. */
  lemma LastWord(q: seq<byte>, keys: seq<Key>, buffer: seq<byte>, j: nat)
    requires Readable(Segments(q)) && Reading(q, |q|, keys, buffer, j)
    ensures keys + [CString(buffer)] == Filled(Segments(q))
  {
    WordRead(q, |q|, keys, buffer, j);
    assert q[..|q|] == q;
  }

  lemma StartReading(q: seq<byte>, buffer: seq<byte>)
    requires |buffer| == MAX_KEY_LENGTH
    ensures Reading(q, 0, [], buffer, 0)
  {
    assert q[..0] == [];
  }

  /** The body of the second loop of `strip_keys`: a space closes a word, any other character joins it. */
  method ReadCharacter(buffer: array<byte>, c: byte, before: seq<Key>, at: nat, ghost q: seq<byte>, ghost t: nat)
    returns (keys: seq<Key>, j: nat)
    requires t < |q| && q[t] == c && Readable(Segments(q)) && Reading(q, t, before, buffer[..], at)
    modifies buffer
    ensures Reading(q, t + 1, keys, buffer[..], j)
  {
    if c == SPACE {
      SpaceStep(q, t, before, buffer[..], at);
      return before + [CString(buffer[..])], 0;
    }
    LetterStep(q, t, before, buffer[..], at);
    PutLetter(buffer, at, c);
    return before, at + 1;
  }

  /** The second loop of `strip_keys`: words up to the end of the payload. */
  method ReadWords(payload: seq<byte>, start: nat) returns (keys: seq<Key>)
    requires start <= |payload| && Readable(Segments(payload[start..]))
    ensures keys == Filled(Segments(payload[start..]))
  {
    ghost var q := payload[start..];
    var buffer := new byte[MAX_KEY_LENGTH];
    var i, j := start, 0;
    keys := [];
    StartReading(q, buffer[..]);
    while i < |payload|
      invariant start <= i <= |payload|
      invariant Reading(q, i - start, keys, buffer[..], j)
    {
      keys, j := ReadCharacter(buffer, payload[i], keys, j, q, i - start);
      i := i + 1;
    }
    LastWord(q, keys, buffer[..], j);
    keys := keys + [CString(buffer[..])];
  }

  // ---- Messages to the server ------------------------------------------------------------------

  /** "gets" and each key after a space. */
  function Message(keys: seq<Key>): seq<byte> {
    if keys == [] then GETS
    else Message(keys[..|keys| - 1]) + [SPACE] + keys[|keys| - 1]
  }

  /** `total_ukey_size`. */
  function TotalSize(keys: seq<Key>): nat {
    if keys == [] then 0 else TotalSize(keys[..|keys| - 1]) + |keys[|keys| - 1]|
  }

  lemma {:induction false} MessageLength(keys: seq<Key>)
    ensures |Message(keys)| == |GETS| + |keys| + TotalSize(keys)
  {
    if keys != [] {
      MessageLength(keys[..|keys| - 1]);
    }
  }

  /** `construct_keys_packet`. */
  method ConstructKeysPacket(keys: array<Key>, n: nat) returns (payload: seq<byte>)
    requires n <= keys.Length
    ensures payload == Message(keys[..n])
  {
    payload := GETS;
    for i := 0 to n
      invariant payload == Message(keys[..i])
    {
      assert keys[..i + 1][..i] == keys[..i];
      payload := payload + [SPACE];
      payload := payload + keys[i];
    }
  }

  lemma {:induction false} SegmentsAppend(a: seq<byte>, k: seq<byte>)
    requires Without(k, SPACE)
    ensures Segments(a + [SPACE] + k) == Segments(a) + [k]
  {
    var q := a + [SPACE] + k;
    if k == [] {
      assert q[..|q| - 1] == a;
    } else {
      var front := k[..|k| - 1];
      SegmentsAppend(a, front);
      assert q[..|q| - 1] == a + [SPACE] + front;
      assert front + [k[|k| - 1]] == k;
    }
  }

  lemma {:induction false} SegmentsWord(k: seq<byte>)
    requires Without(k, SPACE)
    ensures Segments(k) == [k]
  {
    if k != [] {
      SegmentsWord(k[..|k| - 1]);
      assert k[..|k| - 1] + [k[|k| - 1]] == k;
    }
  }

  /** The keys of a message, as one string with spaces between. */
  function Spaced(keys: seq<Key>): seq<byte>
    requires keys != []
  {
    if |keys| == 1 then keys[0] else Spaced(keys[..|keys| - 1]) + [SPACE] + keys[|keys| - 1]
  }

  lemma {:induction false} MessageSpaced(keys: seq<Key>)
    requires keys != []
    ensures Message(keys) == GETS + [SPACE] + Spaced(keys)
  {
    if |keys| == 1 {
      assert Message(keys[..0]) == GETS;
    } else {
      MessageSpaced(keys[..|keys| - 1]);
    }
  }

  lemma {:induction false} SpacedSegments(keys: seq<Key>)
    requires keys != [] && ValidKeys(keys)
    ensures Segments(Spaced(keys)) == keys
  {
    var n := |keys| - 1;
    if n == 0 {
      SegmentsWord(keys[0]);
    } else {
      SpacedSegments(keys[..n]);
      SegmentsAppend(Spaced(keys[..n]), keys[n]);
      assert keys[..n] + [keys[n]] == keys;
    }
  }

  lemma {:induction false} FilledWhole(segs: seq<seq<byte>>)
    requires forall i :: 0 <= i < |segs| ==> segs[i] != []
    ensures Filled(segs) == segs
  {
    if segs != [] {
      FilledWhole(segs[..|segs| - 1]);
    }
  }

  /** Which requests `strip_keys` reads faithfully: those without an empty piece. */
  lemma FaithfulIffNoGap(segs: seq<seq<byte>>)
    requires segs != [] && segs[0] != []
    ensures Filled(segs) == segs <==> forall i :: 0 <= i < |segs| ==> segs[i] != []
  {
    if forall i :: 0 <= i < |segs| ==> segs[i] != [] {
      FilledWhole(segs);
    } else {
      var i :| 0 <= i < |segs| && segs[i] == [];
      FilledNeverEmpty(segs);
    }
  }

  lemma {:induction false} FilledNeverEmpty(segs: seq<seq<byte>>)
    requires segs != [] && segs[0] != []
    ensures forall i :: 0 <= i < |segs| ==> Filled(segs)[i] != []
  {
    if |segs| > 1 {
      FilledNeverEmpty(segs[..|segs| - 1]);
    }
  }

  /** An empty piece is read as the nearest piece before it that is not empty. */
  lemma {:induction false} GapRepeats(segs: seq<seq<byte>>, i: nat, j: nat)
    requires j <= i < |segs| && segs[j] != [] && forall k :: j < k <= i ==> segs[k] == []
    ensures Filled(segs)[i] == segs[j]
  {
    if i < |segs| - 1 {
      GapRepeats(segs[..|segs| - 1], i, j);
    } else if j < i {
      GapRepeats(segs[..|segs| - 1], i - 1, j);
    }
  }

  /** The pieces hold no space, and with single spaces between them they are the text again. */
  lemma {:induction false} SegmentsRejoin(q: seq<byte>)
    ensures Spaced(Segments(q)) == q
    ensures forall i :: 0 <= i < |Segments(q)| ==> Without(Segments(q)[i], SPACE)
  {
    if q != [] {
      var n := |q| - 1;
      var before, last := Segments(q[..n]), |Segments(q[..n])| - 1;
      SegmentsRejoin(q[..n]);
      if q[n] == SPACE {
        assert Segments(q)[..last + 1] == before;
      } else {
        assert Segments(q)[..last] == before[..last];
      }
      assert q == q[..n] + [q[n]];
    }
  }

  /** The keys of a request are what follows its first word. */
  lemma CommandRead(command: seq<byte>, keys: seq<Key>, p: seq<byte>)
    requires Without(command, SPACE) && keys != [] && ValidKeys(keys)
    requires p == command + [SPACE] + Spaced(keys)
    ensures RequestKeys(p) == keys
    ensures |keys| <= MAX_KEY_PER_PACKET ==> ValidRequest(p)
  {
    var q, n := Spaced(keys), |command|;
    assert AfterCommand(p) == q by {
      assert p[..n] == command && p[n] == SPACE && p[n + 1..] == q;
      SkipCommand(p, n);
    }
    SpacedSegments(keys);
    assert forall i :: 0 <= i < |keys| ==> ValidKey(keys[i]) && PieceFits(keys, i);
    FilledWhole(keys);
  }

  /** MAIN.  Reading a message back gives exactly the keys it was written from. */
  lemma {:induction false} MessageRoundTrip(keys: seq<Key>)
    requires keys != [] && ValidKeys(keys)
    ensures RequestKeys(Message(keys)) == keys
    ensures |keys| <= MAX_KEY_PER_PACKET ==> ValidRequest(Message(keys))
  {
    MessageSpaced(keys);
    CommandRead(GETS, keys, Message(keys));
  }

  // ---- Signatures -----------------------------------------------------------------------------------

  type Sig = seq<byte>

  const DASH: byte := 45

  /** `%u`. */
  function Decimal(n: nat): (r: seq<byte>)
    ensures |r| > 0
  {
    if n < 10 then [48 + n] else Decimal(n / 10) + [48 + n % 10]
  }

  /** `%u-%s`: how a key is registered under a request id. */
  function Signature(id: nat, key: Key): (s: Sig)
    ensures s != []
  {
    Decimal(id) + [DASH] + key
  }

  lemma {:induction false} DecimalDigits(n: nat)
    ensures Without(Decimal(n), DASH)
  {
    if n >= 10 {
      DecimalDigits(n / 10);
    }
  }

  lemma {:induction false} DecimalInjective(m: nat, n: nat)
    requires Decimal(m) == Decimal(n)
    ensures m == n
  {
    var a, b := Decimal(m), Decimal(n);
    if m >= 10 && n >= 10 {
      assert a[..|a| - 1] == Decimal(m / 10) && b[..|b| - 1] == Decimal(n / 10);
      assert a[|a| - 1] == 48 + m % 10 && b[|b| - 1] == 48 + n % 10;
      DecimalInjective(m / 10, n / 10);
    }
  }

  /** Two registrations share a signature only if they share both id and key. */
  lemma SignatureInjective(m: nat, k: Key, n: nat, l: Key)
    requires Signature(m, k) == Signature(n, l)
    ensures m == n && k == l
  {
    var a, b := Decimal(m), Decimal(n);
    var s := Signature(m, k);
    DecimalDigits(m);
    DecimalDigits(n);
    assert s[|a|] == DASH && s[|b|] == DASH;
    assert s[..|a|] == a && s[..|b|] == b;
    assert forall i :: 0 <= i < |a| ==> s[i] == a[i] != DASH;
    assert forall i :: 0 <= i < |b| ==> s[i] == b[i] != DASH;
    assert |a| == |b|;
    DecimalInjective(m, n);
    assert s[|a| + 1..] == k && s[|b| + 1..] == l;
  }
}
