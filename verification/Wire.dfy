/** The memcached UDP datagram: an 8 byte frame header (request id, sequence number, datagram count,
    reserved), the text, and CR LF.  The header is that of the "UDP protocol" section of memcached's
    protocol.txt. */
module Wire {
  import opened Bytes
  import opened Text

  const ETH_MTU := 1500
  const UDP_MAX_LEN := ETH_MTU - 20 - 8
  const REQ_ID_SIZE := 2
  const HEADER: seq<byte> := [0, 0, 0, 1, 0, 0]
  const TAIL: seq<byte> := [13, 10]
  const MAX_PAYLOAD_LEN := UDP_MAX_LEN - REQ_ID_SIZE - |HEADER| - |TAIL|
  const TEXT_AT := 8

  /** `htons`, and back with `ntohs`. */
  function BigEndian16(n: u16): seq<byte> {
    var high: int, low: int := n / 256, n % 256;
    [high, low]
  }

  function Read16(s: seq<byte>, i: nat): u16
    requires i + 2 <= |s|
  {
    var high: int := s[i];
    high * 256 + s[i + 1]
  }

  /** Long enough to hold the header and the tail. */
  predicate IsDatagram(dg: seq<byte>) {
    |dg| >= TEXT_AT + |TAIL|
  }

  function ReqIdOf(dg: seq<byte>): u16
    requires IsDatagram(dg)
  {
    Read16(dg, 0)
  }

  function SequenceOf(dg: seq<byte>): u16
    requires IsDatagram(dg)
  {
    Read16(dg, 2)
  }

  function DatagramCountOf(dg: seq<byte>): u16
    requires IsDatagram(dg)
  {
    Read16(dg, 4)
  }

  /** `payload[0 .. msg_len]`. */
  function PayloadOf(dg: seq<byte>): seq<byte>
    requires IsDatagram(dg)
  {
    dg[TEXT_AT..|dg| - |TAIL|]
  }

  /** `init_rcv_app_payload` accepts it. */
  predicate Fits(dg: seq<byte>) {
    |dg| <= UDP_MAX_LEN
  }

  /** The datagram carrying a message to the server. */
  function Framed(id: u16, message: seq<byte>): (dg: seq<byte>)
    ensures IsDatagram(dg)
    ensures Fits(dg) <==> |message| <= MAX_PAYLOAD_LEN
  {
    BigEndian16(id) + HEADER + message + TAIL
  }

  /** A reply with the client's own request id written over the first two bytes. */
  function Readdressed(dg: seq<byte>, id: u16): seq<byte>
    requires IsDatagram(dg)
  {
    BigEndian16(id) + dg[REQ_ID_SIZE..]
  }

  lemma RoundTrip16(n: u16, rest: seq<byte>)
    ensures Read16(BigEndian16(n) + rest, 0) == n
  {
    assert (BigEndian16(n) + rest)[0] == n / 256 && (BigEndian16(n) + rest)[1] == n % 256;
  }

  /** MAIN.  For every id and every list of keys, the datagram sent to the server reads back as the
      same id, sequence 0, count 1 and exactly the same keys, and is accepted unless its text is too long. */
  lemma {:induction false} WireRoundTrip(id: u16, keys: seq<Key>)
    requires keys != [] && ValidKeys(keys)
    ensures var dg := Framed(id, Message(keys));
      && ReqIdOf(dg) == id && SequenceOf(dg) == 0 && DatagramCountOf(dg) == 1
      && RequestKeys(PayloadOf(dg)) == keys
      && (Fits(dg) <==> |keys| + TotalSize(keys) <= MAX_PAYLOAD_LEN - |GETS|)
  {
    var m := Message(keys);
    var dg := Framed(id, m);
    assert dg == BigEndian16(id) + (HEADER + m + TAIL);
    RoundTrip16(id, HEADER + m + TAIL);
    assert PayloadOf(dg) == m;
    MessageRoundTrip(keys);
    MessageLength(keys);
  }

  /** The datagram byte by byte: the id in network order, sequence number 0, datagram count 1, two reserved
      bytes, "gets ", and CR LF at the end. */
  lemma RequestBytes(id: u16, keys: seq<Key>)
    requires keys != []
    ensures var dg := Framed(id, Message(keys));
      && |dg| == 14 + |keys| + TotalSize(keys)
      && dg[0] as int * 256 + dg[1] as int == id
      && dg[2..8] == [0, 0, 0, 1, 0, 0]
      && dg[8..13] == [103, 101, 116, 115, 32]
      && dg[|dg| - 2..] == [13, 10]
  {
    MessageSpaced(keys);
    MessageLength(keys);
    var m := Message(keys);
    assert Framed(id, m) == BigEndian16(id) + HEADER + m + TAIL;
    assert Framed(id, m)[8..13] == m[..5];
  }

  const GET: seq<byte> := [103, 101, 116]

  /** A request as a client writes it: "get" and the keys. */
  function GetRequest(id: u16, keys: seq<Key>): (dg: seq<byte>)
    requires keys != []
    ensures IsDatagram(dg)
  {
    Framed(id, GET + [SPACE] + Spaced(keys))
  }

  /** Such a request is read as its id and its keys. */
  lemma {:induction false} GetRequestReads(id: u16, keys: seq<Key>)
    requires keys != [] && ValidKeys(keys) && |keys| <= MAX_KEY_PER_PACKET
    requires |keys| + TotalSize(keys) <= MAX_PAYLOAD_LEN - |GET|
    ensures var dg := GetRequest(id, keys);
      Fits(dg) && ReqIdOf(dg) == id && ValidRequest(PayloadOf(dg)) && RequestKeys(PayloadOf(dg)) == keys
  {
    var p := GET + [SPACE] + Spaced(keys);
    MessageSpaced(keys);
    MessageLength(keys);
    assert |p| == |GET| + |keys| + TotalSize(keys);
    CommandRead(GET, keys, p);
    assert Framed(id, p) == BigEndian16(id) + (HEADER + p + TAIL);
    RoundTrip16(id, HEADER + p + TAIL);
    assert PayloadOf(Framed(id, p)) == p;
  }

  /** MAIN.  Restoring a client's request id changes the first two bytes and nothing else. */
  lemma ReaddressedOnlyId(dg: seq<byte>, id: u16)
    requires IsDatagram(dg)
    ensures var r := Readdressed(dg, id);
      && IsDatagram(r) && |r| == |dg| && ReqIdOf(r) == id && r[2..] == dg[2..]
      && PayloadOf(r) == PayloadOf(dg)
      && (id == ReqIdOf(dg) ==> r == dg)
  {
    var r := Readdressed(dg, id);
    RoundTrip16(id, dg[2..]);
    assert r[2..] == dg[2..];
    assert PayloadOf(r) == r[2..][6..|r| - 4];
    assert PayloadOf(dg) == dg[2..][6..|dg| - 4];
    if id == ReqIdOf(dg) {
      assert id / 256 == dg[0] && id % 256 == dg[1];
    }
  }

  // ---- The key in a reply ------------------------------------------------------------------------------

  /** `strstr`. */
  predicate Occurs(s: seq<byte>, pattern: seq<byte>) {
    exists i :: 0 <= i <= |s| - |pattern| && OccursAt(s, pattern, i)
  }

  predicate OccursAt(s: seq<byte>, pattern: seq<byte>, i: nat)
    requires i + |pattern| <= |s|
  {
    s[i..i + |pattern|] == pattern
  }

  /** Up to the first space. */
  function Word(s: seq<byte>): seq<byte> {
    if s == [] || s[0] == SPACE then [] else [s[0]] + Word(s[1..])
  }

  const KEY_AT := 6

  /** What `strip_key_value` finds: a key when the text holds "VALUE" before any NUL.  The search is not
      bounded by the message length, so it covers the tail as well. */
  function KeyOf(dg: seq<byte>): Option<Key>
    requires IsDatagram(dg)
  {
    if !Occurs(CString(dg[TEXT_AT..]), VALUE) then None
    else if |PayloadOf(dg)| <= KEY_AT then Some([])
    else Some(CString(Word(PayloadOf(dg)[KEY_AT..])))
  }

  /** A reply whose key, if it names one, fits the buffers it is copied through. */
  predicate ValidReply(dg: seq<byte>) {
    && IsDatagram(dg)
    && (KeyOf(dg).Some? ==> ValidKey(KeyOf(dg).value) && Without(Word(PayloadOf(dg)[KEY_AT..]), 0))
  }

  lemma {:induction false} WordSnoc(s: seq<byte>, i: nat)
    requires i <= |s| && Without(s[..i], SPACE)
    ensures s[..i] <= Word(s)
    ensures i == |s| || s[i] == SPACE ==> Word(s) == s[..i]
  {
    if i > 0 {
      assert s[0] == s[..i][0];
      assert s[1..][..i - 1] == s[..i][1..];
      assert s[..i] == [s[0]] + s[1..][..i - 1];
      WordSnoc(s[1..], i - 1);
    }
  }

  lemma {:induction false} CStringKeeps(s: seq<byte>, n: nat)
    requires n <= |s| && Without(s[..n], 0)
    ensures n <= |CString(s)| && CString(s)[..n] == s[..n]
  {
    if n > 0 {
      assert s[0] == s[..n][0];
      assert s[1..][..n - 1] == s[..n][1..];
      CStringKeeps(s[1..], n - 1);
    }
  }

  /** MAIN.  A reply whose text is "VALUE", a space, a key and another space names that key, and is one the
      middlebox can read. */
  lemma ReplyNamesKey(dg: seq<byte>, key: Key, rest: seq<byte>)
    requires IsDatagram(dg) && ValidKey(key) && PayloadOf(dg) == VALUE + [SPACE] + key + [SPACE] + rest
    ensures KeyOf(dg) == Some(key) && ValidReply(dg)
  {
    var text, payload := dg[TEXT_AT..], PayloadOf(dg);
    assert text[..5] == payload[..5] == VALUE;
    CStringKeeps(text, 5);
    assert OccursAt(CString(text), VALUE, 0);
    assert payload[KEY_AT..] == key + [SPACE] + rest;
    assert payload[KEY_AT..][..|key|] == key;
    WordSnoc(payload[KEY_AT..], |key|);
    CStringPlain(key);
  }

  lemma {:induction false} CStringMeaning(s: seq<byte>)
    ensures var c := CString(s);
      c <= s && Without(c, 0) && (|c| == |s| || s[|c|] == 0)
  {
    if s != [] && s[0] != 0 { CStringMeaning(s[1..]); }
  }

  lemma {:induction false} WordMeaning(s: seq<byte>)
    ensures var w := Word(s);
      w <= s && Without(w, SPACE) && (|w| == |s| || s[|w|] == SPACE)
  {
    if s != [] && s[0] != SPACE { WordMeaning(s[1..]); }
  }

  /** The bytes of "VALUE" stand at i, in the text and before any NUL of it. */
  predicate SpellsValue(dg: seq<byte>, i: int) {
    && 8 <= i <= |dg| - 5
    && (forall j :: 8 <= j < i ==> dg[j] != 0)
    && dg[i] == 86 && dg[i + 1] == 65 && dg[i + 2] == 76 && dg[i + 3] == 85 && dg[i + 4] == 69
  }

  /** MAIN.  A reply names no key, and so continues the value before it, if and only if the bytes of "VALUE"
      stand nowhere in its text before a NUL, however long the text is. */
  lemma NamesNoneIffNoValue(dg: seq<byte>)
    requires IsDatagram(dg)
    ensures KeyOf(dg) == None <==> forall i :: !SpellsValue(dg, i)
    ensures KeyOf(dg) == None ==> ValidReply(dg)
  {
    var text, c := dg[TEXT_AT..], CString(dg[TEXT_AT..]);
    CStringMeaning(text);
    if i :| 0 <= i <= |c| - |VALUE| && OccursAt(c, VALUE, i) {
      SpelledOut(dg, i);
    }
    if i :| SpellsValue(dg, i) {
      SpelledOccurs(dg, i - TEXT_AT);
    }
  }

  lemma SpelledOccurs(dg: seq<byte>, i: nat)
    requires IsDatagram(dg) && SpellsValue(dg, TEXT_AT + i)
    ensures Occurs(CString(dg[TEXT_AT..]), VALUE)
  {
    var text := dg[TEXT_AT..];
    var c := CString(text);
    assert text[i..i + 5] == VALUE;
    var front := text[..i + 5];
    forall j | 0 <= j < |front| ensures front[j] != 0 {
      if j >= i { assert text[j] == text[i..i + 5][j - i] == VALUE[j - i]; }
    }
    CStringKeeps(text, i + 5);
    assert c[i..i + 5] == c[..i + 5][i..] == text[i..i + 5];
    assert OccursAt(c, VALUE, i);
  }

  lemma SpelledOut(dg: seq<byte>, i: nat)
    requires IsDatagram(dg) && i + |VALUE| <= |CString(dg[TEXT_AT..])| && OccursAt(CString(dg[TEXT_AT..]), VALUE, i)
    ensures SpellsValue(dg, TEXT_AT + i)
  {
    var c := CString(dg[TEXT_AT..]);
    CStringMeaning(dg[TEXT_AT..]);
    assert c == dg[TEXT_AT..][..|c|];
    forall j | 0 <= j < |c| ensures dg[TEXT_AT + j] == c[j] != 0 {
      assert dg[TEXT_AT..][j] == dg[TEXT_AT + j];
    }
    var w := c[i..i + |VALUE|];
    assert w == VALUE;
    assert w[0] == c[i] && w[1] == c[i + 1] && w[2] == c[i + 2] && w[3] == c[i + 3] && w[4] == c[i + 4];
    assert w[0] == 86 && w[1] == 65 && w[2] == 76 && w[3] == 85 && w[4] == 69;
    forall j | TEXT_AT <= j < TEXT_AT + i ensures dg[j] != 0 {
      assert dg[TEXT_AT + (j - TEXT_AT)] == c[j - TEXT_AT];
    }
  }

  /** MAIN.  The key a reply names is the longest run of bytes other than space and NUL from byte 14 of the
      datagram on, wherever "VALUE" stood, and it ends before the last two bytes. */
  lemma NamedKeyIsAt14(dg: seq<byte>)
    requires IsDatagram(dg) && KeyOf(dg).Some?
    ensures var k := KeyOf(dg).value;
      if |dg| < 16 then k == []
      else
        && 14 + |k| <= |dg| - 2 && dg[14..14 + |k|] == k && Without(k, 32) && Without(k, 0)
        && (14 + |k| == |dg| - 2 || dg[14 + |k|] == 32 || dg[14 + |k|] == 0)
  {
    if |dg| >= 16 {
      var rest := dg[14..|dg| - 2];
      assert |PayloadOf(dg)| > KEY_AT ==> PayloadOf(dg)[KEY_AT..] == rest;
      WordMeaning(rest);
      CStringMeaning(Word(rest));
    }
  }

  /** A text too short to hold "VALUE" continues the value before it. */
  lemma ShortTextNamesNone(dg: seq<byte>)
    requires IsDatagram(dg) && |PayloadOf(dg)| + |TAIL| < |VALUE|
    ensures KeyOf(dg) == None && ValidReply(dg)
  {
    CStringShort(dg[TEXT_AT..]);
  }

  lemma {:induction false} CStringShort(s: seq<byte>)
    ensures |CString(s)| <= |s|
  {
    if s != [] && s[0] != 0 { CStringShort(s[1..]); }
  }

  lemma {:induction false} CStringPlain(s: seq<byte>)
    requires Without(s, 0)
    ensures CString(s) == s
  {
    if s != [] { CStringPlain(s[1..]); }
  }

  /** `strip_key_value`. */
  method StripKeyValue(dg: seq<byte>) returns (key: Option<Key>)
    requires ValidReply(dg)
    ensures key == KeyOf(dg)
  {
    if !Occurs(CString(dg[TEXT_AT..]), VALUE) {
      return None;
    }
    var payload := PayloadOf(dg);
    ghost var text := payload[KEY_AT..];
    var i := KEY_AT;
    var k: Key := [];
    while i < |payload| && payload[i] != SPACE
      invariant KEY_AT <= i <= |payload| && k == text[..i - KEY_AT] && Without(k, SPACE)
    {
      assert payload[i] == text[i - KEY_AT];
      k := k + [payload[i]];
      i := i + 1;
    }
    WordSnoc(text, |k|);
    CStringPlain(Word(text));
    key := Some(k);
  }
}
