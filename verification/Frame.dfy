/** Building frames in the packet buffer: middlebox/src/udp.c, ip.c, eth.c and the scratch structures of
    api.c, which lie over the very headers being built. */
module Frames {
  import opened Bytes
  import opened Wire

  // The buffer: Ethernet header, IPv4 header without options, UDP header, payload.
  const IP_AT := 14
  const UDP_AT := 34
  const PAYLOAD_AT := 42
  // Scratch: struct ip_tuple { src_ip; dst_ip; src_port; dst_port } and, behind it,
  // struct net_sge { payload; len; (padding) handle }, in the byte order of the machine.
  const SGE_AT := 12
  const SGE_LEN_AT := 20
  const SGE_HANDLE_AT := 28

  const LOCAL_IP: nat := 10 * 0x1000000 + 1 * 0x10000 + 2
  const LOCAL_PORT: u16 := 8080
  const TARGET_PORT: u16 := 8080
  const LOCAL_MAC: seq<byte> := [0xDE, 0xAD, 0xBE, 0xEF, 0xAA, 0xAA]
  const TTL: byte := 64
  const UDP_PROTO: byte := 17

  type u32 = x: int | 0 <= x < 0x1_0000_0000

  function Big16(n: nat): seq<byte> {
    var high: int, low: int := n / 256 % 256, n % 256;
    [high, low]
  }

  function Big32(n: u32): seq<byte> {
    Big16(n / 65536) + Big16(n % 65536)
  }

  function Little16(n: nat): seq<byte> {
    var high: int, low: int := n / 256 % 256, n % 256;
    [low, high]
  }

  function Little32(n: u32): seq<byte> {
    Little16(n % 65536) + Little16(n / 65536)
  }

  function ReadLittle16(s: seq<byte>): nat
    requires |s| == 2
  {
    var high: int, low: int := s[1], s[0];
    high * 256 + low
  }

  function ReadLittle32(s: seq<byte>): nat
    requires |s| == 4
  {
    ReadLittle16(s[..2]) + 65536 * ReadLittle16(s[2..])
  }

  function ReadBig16(s: seq<byte>): nat
    requires |s| == 2
  {
    var high: int, low: int := s[0], s[1];
    high * 256 + low
  }

  lemma LittleRoundTrip(n: u32)
    ensures ReadLittle32(Little32(n)) == n
    ensures n < 65536 ==> ReadLittle16(Little16(n)) == n && ReadBig16(Big16(n)) == n
  {
    assert Little32(n)[..2] == Little16(n % 65536);
    assert Little32(n)[2..] == Little16(n / 65536);
  }

  // ---- The checksum --------------------------------------------------------------------------------

  /** The sum of the 16-bit words as a little-endian machine reads them. */
  function LittleSum(s: seq<byte>): nat {
    if |s| < 2 then 0 else s[0] as int + 256 * s[1] as int + LittleSum(s[2..])
  }

  /** The same words read in network order. */
  function BigSum(s: seq<byte>): nat {
    if |s| < 2 then 0 else 256 * s[0] as int + s[1] as int + BigSum(s[2..])
  }

  function FoldOnce(n: nat): nat {
    n / 65536 + n % 65536
  }

  /** The folded one's-complement sum (sections 1 and 2(B) of RFC 1071). */
  function Fold(n: nat): nat {
    FoldOnce(FoldOnce(n)) % 65536
  }

  /** `rte_raw_cksum`. */
  function RawChecksum(s: seq<byte>): nat {
    Fold(LittleSum(s))
  }

  /** What ip.c stores: the complement, except that an all-ones sum is stored as it is. */
  function StoredChecksum(raw: nat): nat
    requires raw < 65536
  {
    if raw == 0xffff then raw else 0xffff - raw
  }

  lemma {:induction false} AddMultiple(m: nat, a: nat)
    ensures (m + 65535 * a) % 65535 == m % 65535
  {
    if a > 0 {
      AddMultiple(m, a - 1);
      assert m + 65535 * a == (m + 65535 * (a - 1)) + 65535;
    }
  }

  /** A sum with one carry at most. */
  lemma FoldCarry(m: nat)
    requires m <= 131070
    ensures FoldOnce(m) == (if m < 65536 then m else m - 65535) <= 65535
  {
    if m >= 65536 { assert m / 65536 == 1 && m % 65536 == m - 65536; }
  }

  /** Folding keeps the residue modulo 65535 and never turns a positive sum into zero. */
  lemma FoldMeaning(n: nat)
    requires n < 0x1_0000_0000
    ensures Fold(n) < 65536
    ensures Fold(n) % 65535 == n % 65535
    ensures Fold(n) == 0 <==> n == 0
  {
    var a, m := n / 65536, FoldOnce(n);
    assert n == m + 65535 * a && a < 65536;
    AddMultiple(m, a);
    FoldCarry(m);
    if m >= 65536 { AddMultiple(m - 65535, 1); }
  }

  /** Reading the words the other way round multiplies the sum by 256, up to multiples of 65535. */
  lemma {:induction false} SwapSum(s: seq<byte>) returns (h: nat)
    ensures 256 * LittleSum(s) == BigSum(s) + 65535 * h
  {
    if |s| < 2 {
      h := 0;
    } else {
      var rest := SwapSum(s[2..]);
      h := rest + s[1];
    }
  }

  lemma {:induction false} SumBound(s: seq<byte>)
    ensures 0 <= LittleSum(s) <= 65535 * (|s| / 2)
    ensures 0 <= BigSum(s) <= 65535 * (|s| / 2)
  {
    if |s| >= 2 { SumBound(s[2..]); }
  }

  // ---- Headers -----------------------------------------------------------------------------------------

  /** The IPv4 header (section 3.1 of RFC 791) with the given checksum field. */
  function IpFields(l4len: nat, src: u32, dst: u32, sum: seq<byte>): (h: seq<byte>)
    requires |sum| == 2
    ensures |h| == 20
  {
    [0x45, 0] + Big16(20 + l4len) + [0, 0] + [0x40, 0] + [TTL, UDP_PROTO] + sum + Big32(src) + Big32(dst)
  }

  function IpHeader(l4len: nat, src: u32, dst: u32): (h: seq<byte>)
    ensures |h| == 20
  {
    IpFields(l4len, src, dst, Little16(StoredChecksum(RawChecksum(IpFields(l4len, src, dst, [0, 0])))))
  }

  function UdpHeader(len: nat): (h: seq<byte>)
    ensures |h| == 8
  {
    Big16(LOCAL_PORT) + Big16(TARGET_PORT) + Big16(len + 8) + [0, 0]
  }

  /** Everything in front of a payload of `len` bytes. */
  function Headers(mac: seq<byte>, len: nat, dst: u32): (h: seq<byte>)
    requires |mac| == 6
    ensures |h| == PAYLOAD_AT
  {
    mac + LOCAL_MAC + [0x08, 0x00] + IpHeader(len + 8, LOCAL_IP, dst) + UdpHeader(len)
  }

  lemma {:induction false} LittleSumConcat(a: seq<byte>, b: seq<byte>)
    requires |a| % 2 == 0
    ensures LittleSum(a + b) == LittleSum(a) + LittleSum(b)
  {
    if a == [] {
      assert a + b == b;
    } else {
      LittleSumConcat(a[2..], b);
      assert (a + b)[2..] == a[2..] + b;
    }
  }

  /** The checksum field adds its own value to the sum. */
  lemma SumOfFields(l4len: nat, src: u32, dst: u32, sum: seq<byte>)
    requires |sum| == 2
    ensures LittleSum(IpFields(l4len, src, dst, sum)) ==
            LittleSum(IpFields(l4len, src, dst, [0, 0])) + ReadLittle16(sum)
  {
    var a := [0x45, 0] + Big16(20 + l4len) + [0, 0] + [0x40, 0] + [TTL, UDP_PROTO];
    var b := Big32(src) + Big32(dst);
    SumAround(a, sum, b);
    SumAround(a, [0, 0], b);
    assert IpFields(l4len, src, dst, sum) == a + (sum + b);
    assert IpFields(l4len, src, dst, [0, 0]) == a + ([0, 0] + b);
  }

  lemma SumAround(a: seq<byte>, sum: seq<byte>, b: seq<byte>)
    requires |a| % 2 == 0 && |sum| == 2
    ensures LittleSum(a + (sum + b)) == LittleSum(a) + ReadLittle16(sum) + LittleSum(b)
  {
    LittleSumConcat(a, sum + b);
    assert (sum + b)[2..] == b;
  }

  /** MAIN.  Every header sent verifies: its words sum to all ones, in either byte order, also when the raw sum
      was all ones already and is stored uncomplemented. */
  lemma HeaderVerifies(l4len: nat, src: u32, dst: u32)
    ensures Fold(LittleSum(IpHeader(l4len, src, dst))) == 0xffff
    ensures Fold(BigSum(IpHeader(l4len, src, dst))) == 0xffff
  {
    var bare := IpFields(l4len, src, dst, [0, 0]);
    var raw, total := RawChecksum(bare), LittleSum(bare);
    var h := IpHeader(l4len, src, dst);
    SumBound(bare);
    FoldMeaning(total);
    LittleRoundTrip(StoredChecksum(raw));
    SumOfFields(l4len, src, dst, Little16(StoredChecksum(raw)));
    var sum := LittleSum(h);
    assert sum == total + StoredChecksum(raw);
    assert sum % 65535 == 0 && sum > 0 by {
      assert total % 65535 == raw % 65535;
      AllOnes(total, raw);
    }
    AllOnesFolds(sum);
    var high := SwapSum(h);
    SumBound(h);
    BigIsMultiple(sum, BigSum(h), high);
    AllOnesFolds(BigSum(h));
  }

  lemma AllOnes(total: nat, raw: nat)
    requires raw < 65536 && total % 65535 == raw % 65535 && (raw == 0 <==> total == 0)
    ensures (total + StoredChecksum(raw)) % 65535 == 0 && total + StoredChecksum(raw) > 0
  {}

  lemma AllOnesFolds(sum: nat)
    requires 0 < sum < 0x1_0000_0000 && sum % 65535 == 0
    ensures Fold(sum) == 0xffff
  {
    FoldMeaning(sum);
  }

  lemma MultipleOf(m: int, n: nat)
    requires n == 65535 * m
    ensures n % 65535 == 0
  {}

  lemma BigIsMultiple(little: nat, big: nat, h: nat)
    requires 256 * little == big + 65535 * h && little % 65535 == 0 && little > 0 && big >= 1
    ensures big % 65535 == 0
  {
    var k := little / 65535;
    assert little == 65535 * k;
    MultipleOf(256 * k - h, big);
  }

  // ---- Stores into the buffer ------------------------------------------------------------------------------

  /** Nothing outside [from, to) differs. */
  twostate predicate OnlyWithin(pkt: array<byte>, from: int, to: int)
    reads pkt
  {
    forall i :: 0 <= i < pkt.Length && !(from <= i < to) ==> pkt[i] == old(pkt[i])
  }

  /** What lies before or behind the bytes written is as it was. */
  lemma Kept(was: seq<byte>, pkt: array<byte>, from: int, to: int, a: nat, b: nat)
    requires |was| == pkt.Length && a <= b <= pkt.Length && (b <= from || to <= a)
    requires forall i :: 0 <= i < pkt.Length && !(from <= i < to) ==> pkt[i] == was[i]
    ensures pkt[a..b] == was[a..b]
  {}

  lemma Joined(pkt: array<byte>, a: nat, b: nat, c: nat)
    requires a <= b <= c <= pkt.Length
    ensures pkt[a..c] == pkt[a..b] + pkt[b..c]
  {}

  lemma SubSlice(pkt: array<byte>, a: nat, b: nat, c: nat, d: nat)
    requires a <= c <= d <= b <= pkt.Length
    ensures pkt[a..b][c - a..d - a] == pkt[c..d]
  {
    assert forall i :: 0 <= i < d - c ==> pkt[a..b][c - a..d - a][i] == pkt[c + i] == pkt[c..d][i];
  }

  /** `rte_memcpy`, and every store of a multi-byte field. */
  method Store(pkt: array<byte>, at: nat, bytes: seq<byte>)
    requires at + |bytes| <= pkt.Length
    modifies pkt
    ensures pkt[at..at + |bytes|] == bytes
    ensures OnlyWithin(pkt, at, at + |bytes|)
  {
    forall i | 0 <= i < |bytes| {
      pkt[at + i] := bytes[i];
    }
  }

  /** `init_net_sge`, with the length `app_send` puts into it.  The two pointers may be anything. */
  method InitNetSge(pkt: array<byte>, len: u32, payload: seq<byte>, handle: seq<byte>)
    requires pkt.Length >= PAYLOAD_AT && |payload| == |handle| == 8
    modifies pkt
    ensures pkt[SGE_LEN_AT..SGE_LEN_AT + 4] == Little32(len)
    ensures OnlyWithin(pkt, SGE_AT, SGE_HANDLE_AT + 8)
  {
    Store(pkt, SGE_LEN_AT, Little32(len));
    Store(pkt, SGE_AT, payload);
    Store(pkt, SGE_HANDLE_AT, handle);
  }

  /** `init_ip_tuple`. */
  method InitIpTuple(pkt: array<byte>, dst: u32)
    requires pkt.Length >= PAYLOAD_AT
    modifies pkt
    ensures pkt[..8] == Little32(LOCAL_IP) + Little32(dst)
    ensures pkt[8..10] == Little16(LOCAL_PORT) && pkt[10..12] == Little16(TARGET_PORT)
    ensures OnlyWithin(pkt, 0, SGE_AT)
  {
    Store(pkt, 0, Little32(LOCAL_IP));
    Store(pkt, 4, Little32(dst));
    Store(pkt, 8, Little16(LOCAL_PORT));
    Store(pkt, 10, Little16(TARGET_PORT));
    assert pkt[..8] == pkt[0..4] + pkt[4..8];
  }

  // ---- Down the layers ------------------------------------------------------------------------------------

  /** The first half of the header fill of `ip_out`. */
  method IpFrontOut(pkt: array<byte>, l4len: nat)
    requires pkt.Length >= PAYLOAD_AT
    modifies pkt
    ensures pkt[14..24] == [0x45, 0] + Big16(20 + l4len) + [0, 0] + [0x40, 0] + [TTL, UDP_PROTO]
    ensures OnlyWithin(pkt, 14, 24)
  {
    Store(pkt, 14, [0x45, 0]);
    Store(pkt, 16, Big16(20 + l4len));
    Store(pkt, 18, [0, 0]);
    Store(pkt, 20, [0x40, 0]);
    Store(pkt, 22, [TTL, UDP_PROTO]);
    Joined(pkt, 14, 16, 18);
    Joined(pkt, 14, 18, 20);
    Joined(pkt, 14, 20, 22);
    Joined(pkt, 14, 22, 24);
  }

  /** The header fill of `ip_out`, with a zero checksum. */
  method IpFieldsOut(pkt: array<byte>, src: u32, dst: u32, l4len: nat)
    requires pkt.Length >= PAYLOAD_AT
    modifies pkt
    ensures pkt[IP_AT..UDP_AT] == IpFields(l4len, src, dst, [0, 0])
    ensures OnlyWithin(pkt, IP_AT, UDP_AT)
  {
    IpFrontOut(pkt, l4len);
    Store(pkt, 24, [0, 0]);
    Store(pkt, 26, Big32(src));
    Store(pkt, 30, Big32(dst));
    Joined(pkt, 14, 24, 26);
    Joined(pkt, 14, 26, 30);
    Joined(pkt, 14, 30, 34);
  }

  lemma ChecksumField(l4len: nat, src: u32, dst: u32, sum: seq<byte>)
    requires |sum| == 2
    ensures var bare := IpFields(l4len, src, dst, [0, 0]);
      IpFields(l4len, src, dst, sum) == bare[..10] + sum + bare[12..]
  {}

  /** `ip_out`: the header, then the checksum over it, first raw and then complemented. */
  method IpOut(pkt: array<byte>, src: u32, dst: u32, l4len: nat)
    requires pkt.Length >= PAYLOAD_AT
    modifies pkt
    ensures pkt[IP_AT..UDP_AT] == IpHeader(l4len, src, dst)
    ensures OnlyWithin(pkt, IP_AT, UDP_AT)
  {
    IpFieldsOut(pkt, src, dst, l4len);
    ghost var bare := pkt[IP_AT..UDP_AT];
    var raw := RawChecksum(pkt[IP_AT..UDP_AT]);
    var stored := Little16(StoredChecksum(raw));
    Store(pkt, 24, Little16(raw));
    Store(pkt, 24, stored);
    ChecksumField(l4len, src, dst, stored);
    assert pkt[14..34] == bare[..10] + stored + bare[12..];
  }

  /** `eth_out`, up to handing the frame to the driver. */
  method EthOut(pkt: array<byte>, mac: seq<byte>)
    requires pkt.Length >= PAYLOAD_AT && |mac| == 6
    modifies pkt
    ensures pkt[..IP_AT] == mac + LOCAL_MAC + [0x08, 0x00]
    ensures OnlyWithin(pkt, 0, IP_AT)
  {
    Store(pkt, 0, mac);
    Store(pkt, 6, LOCAL_MAC);
    Store(pkt, 12, [0x08, 0x00]);
    Joined(pkt, 0, 6, 12);
    Joined(pkt, 0, 12, 14);
  }

  /** The UDP header fields of `udp_out`; the ports come out of the scratch tuple. */
  method UdpFieldsOut(pkt: array<byte>, len: nat)
    requires pkt.Length >= PAYLOAD_AT
    requires pkt[8..10] == Little16(LOCAL_PORT) && pkt[10..12] == Little16(TARGET_PORT)
    modifies pkt
    ensures pkt[UDP_AT..PAYLOAD_AT] == UdpHeader(len)
    ensures OnlyWithin(pkt, UDP_AT, PAYLOAD_AT)
  {
    ghost var start := pkt[..];
    LittleRoundTrip(LOCAL_PORT);
    LittleRoundTrip(TARGET_PORT);
    Store(pkt, 40, [0, 0]);
    Store(pkt, 38, Big16(len + 8));
    Kept(start, pkt, 38, 42, 8, 10);
    Store(pkt, 34, Big16(ReadLittle16(pkt[8..10])));
    Kept(start, pkt, 34, 42, 10, 12);
    Store(pkt, 36, Big16(ReadLittle16(pkt[10..12])));
    Joined(pkt, 34, 36, 38);
    Joined(pkt, 34, 38, 40);
    Joined(pkt, 34, 40, 42);
  }

  /** The IP and Ethernet headers in front of a finished UDP header. */
  method HeadersOut(pkt: array<byte>, src: u32, dst: u32, l4len: nat, mac: seq<byte>)
    requires pkt.Length >= PAYLOAD_AT && |mac| == 6
    modifies pkt
    ensures pkt[..UDP_AT] == mac + LOCAL_MAC + [0x08, 0x00] + IpHeader(l4len, src, dst)
    ensures OnlyWithin(pkt, 0, UDP_AT)
  {
    IpOut(pkt, src, dst, l4len);
    ghost var was := pkt[..];
    EthOut(pkt, mac);
    Kept(was, pkt, 0, IP_AT, IP_AT, UDP_AT);
    Joined(pkt, 0, IP_AT, UDP_AT);
  }

  /** The addresses in the scratch tuple. */
  method ReadAddresses(pkt: array<byte>, ghost dst: u32) returns (from: u32, to: u32)
    requires pkt.Length >= PAYLOAD_AT && pkt[..8] == Little32(LOCAL_IP) + Little32(dst)
    ensures from == LOCAL_IP && to == dst
  {
    LittleRoundTrip(LOCAL_IP);
    LittleRoundTrip(dst);
    assert pkt[..4] == pkt[..8][..4] == Little32(LOCAL_IP);
    assert pkt[4..8] == pkt[..8][4..] == Little32(dst);
    return ReadLittle32(pkt[..4]), ReadLittle32(pkt[4..8]);
  }

  /** `udp_out`: the addresses are read out of the scratch tuple before the headers cover it. */
  method UdpOut(pkt: array<byte>, len: nat, ghost dst: u32, mac: seq<byte>)
    requires pkt.Length >= PAYLOAD_AT && |mac| == 6
    requires pkt[..8] == Little32(LOCAL_IP) + Little32(dst)
    requires pkt[8..10] == Little16(LOCAL_PORT) && pkt[10..12] == Little16(TARGET_PORT)
    modifies pkt
    ensures pkt[..PAYLOAD_AT] == Headers(mac, len, dst)
    ensures OnlyWithin(pkt, 0, PAYLOAD_AT)
  {
    ghost var start := pkt[..];
    UdpFieldsOut(pkt, len);
    Kept(start, pkt, UDP_AT, PAYLOAD_AT, 0, 8);
    var from, to := ReadAddresses(pkt, dst);
    ghost var udp := pkt[..];
    HeadersOut(pkt, from, to, len + 8, mac);
    Kept(udp, pkt, 0, UDP_AT, UDP_AT, PAYLOAD_AT);
    Joined(pkt, 0, UDP_AT, PAYLOAD_AT);
  }

  /** `udp_send`: the length comes out of the scratch structure behind the tuple. */
  method UdpSend(pkt: array<byte>, ghost len: u32, dst: u32, mac: seq<byte>) returns (ok: bool)
    requires pkt.Length >= PAYLOAD_AT && |mac| == 6 && pkt[SGE_LEN_AT..SGE_LEN_AT + 4] == Little32(len)
    modifies pkt
    ensures ok <==> len <= UDP_MAX_LEN
    ensures ok ==> pkt[..PAYLOAD_AT] == Headers(mac, len, dst)
    ensures OnlyWithin(pkt, 0, PAYLOAD_AT)
  {
    ghost var start := pkt[..];
    InitIpTuple(pkt, dst);
    Kept(start, pkt, 0, SGE_AT, SGE_LEN_AT, SGE_LEN_AT + 4);
    LittleRoundTrip(len);
    var n := ReadLittle32(pkt[SGE_LEN_AT..SGE_LEN_AT + 4]);
    if n > UDP_MAX_LEN {
      return false;
    }
    UdpOut(pkt, n, dst, mac);
    return true;
  }

  /** `init_send_app_payload` towards the server. */
  method FillForServer(pkt: array<byte>, message: seq<byte>, reqId: u16)
    requires pkt.Length >= PAYLOAD_AT + UDP_MAX_LEN && |message| <= MAX_PAYLOAD_LEN
    modifies pkt
    ensures pkt[PAYLOAD_AT..PAYLOAD_AT + |Framed(reqId, message)|] == Framed(reqId, message)
    ensures OnlyWithin(pkt, PAYLOAD_AT, PAYLOAD_AT + |Framed(reqId, message)|)
  {
    FillFront(pkt, reqId);
    ghost var front := pkt[..];
    FillText(pkt, message);
    Kept(front, pkt, 50, 52 + |message|, 42, 50);
    Joined(pkt, 42, 50, 52 + |message|);
  }

  /** The request id and the rest of the frame header. */
  method FillFront(pkt: array<byte>, reqId: u16)
    requires pkt.Length >= PAYLOAD_AT + UDP_MAX_LEN
    modifies pkt
    ensures pkt[42..50] == BigEndian16(reqId) + HEADER && OnlyWithin(pkt, 42, 50)
  {
    Store(pkt, 42, BigEndian16(reqId));
    ghost var id := pkt[..];
    Store(pkt, 44, HEADER);
    Kept(id, pkt, 44, 50, 42, 44);
    Joined(pkt, 42, 44, 50);
  }

  /** The message and the tail. */
  method FillText(pkt: array<byte>, message: seq<byte>)
    requires pkt.Length >= PAYLOAD_AT + UDP_MAX_LEN && |message| <= MAX_PAYLOAD_LEN
    modifies pkt
    ensures pkt[50..52 + |message|] == message + TAIL && OnlyWithin(pkt, 50, 52 + |message|)
  {
    Store(pkt, 50, message);
    ghost var text := pkt[..];
    Store(pkt, 50 + |message|, TAIL);
    Kept(text, pkt, 50 + |message|, 52 + |message|, 50, 50 + |message|);
    Joined(pkt, 50, 50 + |message|, 52 + |message|);
  }

  /** `init_send_app_payload` towards a client. */
  method FillForClient(pkt: array<byte>, reqId: u16, ghost dg: seq<byte>)
    requires pkt.Length >= PAYLOAD_AT + |dg| && IsDatagram(dg) && pkt[PAYLOAD_AT..PAYLOAD_AT + |dg|] == dg
    modifies pkt
    ensures pkt[PAYLOAD_AT..PAYLOAD_AT + |dg|] == Readdressed(dg, reqId)
    ensures pkt[38..40] == old(pkt[38..40])
    ensures OnlyWithin(pkt, PAYLOAD_AT, PAYLOAD_AT + 2)
  {
    ghost var was := pkt[..];
    SubSlice(pkt, PAYLOAD_AT, PAYLOAD_AT + |dg|, PAYLOAD_AT + 2, PAYLOAD_AT + |dg|);
    Store(pkt, PAYLOAD_AT, BigEndian16(reqId));
    Kept(was, pkt, PAYLOAD_AT, PAYLOAD_AT + 2, PAYLOAD_AT + 2, PAYLOAD_AT + |dg|);
    Kept(was, pkt, PAYLOAD_AT, PAYLOAD_AT + 2, 38, 40);
    Joined(pkt, PAYLOAD_AT, PAYLOAD_AT + 2, PAYLOAD_AT + |dg|);
  }

  /** `rte_be_to_cpu_16(udph->dgram_len) - sizeof(struct rte_udp_hdr)`. */
  ghost function PayloadLength(pkt: seq<byte>): int
    requires |pkt| >= PAYLOAD_AT
  {
    ReadBig16(pkt[38..40]) - 8
  }

  lemma LengthStored(pkt: array<byte>)
    requires pkt.Length >= PAYLOAD_AT
    ensures PayloadLength(pkt[..]) == ReadBig16(pkt[38..40]) - 8
  {
    assert pkt[..][38..40] == pkt[38..40];
  }

  lemma HeadersCarryLength(mac: seq<byte>, len: nat, dst: u32)
    requires |mac| == 6 && len <= UDP_MAX_LEN
    ensures Headers(mac, len, dst)[38..40] == Big16(len + 8)
    ensures ReadBig16(Big16(len + 8)) == len + 8
    ensures Headers(mac, len, dst)[IP_AT..UDP_AT] == IpHeader(len + 8, LOCAL_IP, dst)
  {
    var h, front := Headers(mac, len, dst), mac + LOCAL_MAC + [0x08, 0x00];
    assert h == front + IpHeader(len + 8, LOCAL_IP, dst) + UdpHeader(len);
    assert h[IP_AT..UDP_AT] == IpHeader(len + 8, LOCAL_IP, dst);
    assert h[38..40] == UdpHeader(len)[4..6];
    LittleRoundTrip(len + 8);
  }

  /** The number in two bytes, high byte first. */
  function Wide(h: seq<byte>, at: nat): int
    requires at + 2 <= |h|
  {
    256 * h[at] as int + h[at + 1] as int
  }

  /** What a receiver reads in front of a payload of `len` bytes for `dst`, field by field. */
  predicate Addressed(h: seq<byte>, mac: seq<byte>, len: nat, dst: nat) {
    && |h| == 42
    && h[0..6] == mac && h[6..12] == [0xDE, 0xAD, 0xBE, 0xEF, 0xAA, 0xAA] && Wide(h, 12) == 0x0800
    // version, header length, service, total length, identification, flags, lifetime, protocol
    && h[14] == 0x45 && h[15] == 0 && Wide(h, 16) == len + 28 && Wide(h, 18) == 0 && Wide(h, 20) == 0x4000
    && h[22] == 64 && h[23] == 17
    // source and destination address
    && h[26] == 10 && h[27] == 1 && h[28] == 0 && h[29] == 2
    && 65536 * Wide(h, 30) + Wide(h, 32) == dst
    // source and destination port, length, checksum
    && Wide(h, 34) == 8080 && Wide(h, 36) == 8080 && Wide(h, 38) == len + 8 && Wide(h, 40) == 0
  }

  lemma BigReads(n: nat)
    ensures n < 65536 ==> Wide(Big16(n), 0) == n
    ensures n < 0x1_0000_0000 ==> 65536 * Wide(Big32(n), 0) + Wide(Big32(n), 2) == n
  {
    if n < 0x1_0000_0000 {
      assert Big32(n)[0] == Big16(n / 65536)[0] && Big32(n)[1] == Big16(n / 65536)[1];
      assert Big32(n)[2] == Big16(n % 65536)[0] && Big32(n)[3] == Big16(n % 65536)[1];
    }
  }

  lemma WideWithin(h: seq<byte>, at: nat, part: seq<byte>, i: nat)
    requires at + |part| <= |h| && h[at..at + |part|] == part && i + 2 <= |part|
    ensures Wide(h, at + i) == Wide(part, i)
  {
    assert h[at + i] == h[at..at + |part|][i] && h[at + i + 1] == h[at..at + |part|][i + 1];
  }

  lemma LocalAddress()
    ensures Big32(LOCAL_IP) == [10, 1, 0, 2]
  {}

  /** The same of the 20 bytes of an IPv4 header. */
  predicate IpReads(h: seq<byte>, l4len: nat, dst: nat) {
    && |h| == 20
    && h[0] == 0x45 && h[1] == 0 && Wide(h, 2) == 20 + l4len && Wide(h, 4) == 0 && Wide(h, 6) == 0x4000
    && h[8] == 64 && h[9] == 17 && h[12] == 10 && h[13] == 1 && h[14] == 0 && h[15] == 2
    && 65536 * Wide(h, 16) + Wide(h, 18) == dst
  }

  /** Where the parts of an IPv4 header lie. */
  lemma IpParts(h: seq<byte>, length: seq<byte>, sum: seq<byte>, from: seq<byte>, to: seq<byte>)
    requires |length| == |sum| == 2 && |from| == |to| == 4
    requires h == [0x45, 0] + length + [0, 0] + [0x40, 0] + [64, 17] + sum + from + to
    ensures |h| == 20 && h[0] == 0x45 && h[1] == 0 && h[2] == length[0] && h[3] == length[1]
    ensures h[4] == 0 && h[5] == 0 && h[6] == 0x40 && h[7] == 0 && h[8] == 64 && h[9] == 17
    ensures h[12] == from[0] && h[13] == from[1] && h[14] == from[2] && h[15] == from[3]
    ensures h[16] == to[0] && h[17] == to[1] && h[18] == to[2] && h[19] == to[3]
  {}

  lemma IpFieldsRead(l4len: nat, dst: u32, sum: seq<byte>)
    requires |sum| == 2 && l4len <= UDP_MAX_LEN + 8
    ensures IpReads(IpFields(l4len, LOCAL_IP, dst, sum), l4len, dst)
  {
    BigReads(20 + l4len);
    BigReads(dst);
    LocalAddress();
    IpParts(IpFields(l4len, LOCAL_IP, dst, sum), Big16(20 + l4len), sum, Big32(LOCAL_IP), Big32(dst));
  }

  lemma IpHeaderReads(l4len: nat, dst: u32)
    requires l4len <= UDP_MAX_LEN + 8
    ensures IpReads(IpHeader(l4len, LOCAL_IP, dst), l4len, dst)
  {
    IpFieldsRead(l4len, dst, Little16(StoredChecksum(RawChecksum(IpFields(l4len, LOCAL_IP, dst, [0, 0])))));
  }

  /** And of the 8 bytes of a UDP header. */
  predicate UdpReads(h: seq<byte>, len: nat) {
    |h| == 8 && Wide(h, 0) == 8080 && Wide(h, 2) == 8080 && Wide(h, 4) == len + 8 && Wide(h, 6) == 0
  }

  lemma UdpHeaderReads(len: nat)
    requires len <= UDP_MAX_LEN
    ensures UdpReads(UdpHeader(len), len)
  {
    BigReads(len + 8);
  }

  /** The fields of the two headers, read in front of the payload. */
  lemma FieldsWithin(h: seq<byte>, mac: seq<byte>, ip: seq<byte>, udp: seq<byte>, len: nat, dst: nat)
    requires |mac| == 6 && IpReads(ip, len + 8, dst) && UdpReads(udp, len)
    requires |h| == 42 && h[0..6] == mac && h[6..12] == LOCAL_MAC && h[12] == 0x08 && h[13] == 0
    requires h[14..14 + |ip|] == ip && h[34..34 + |udp|] == udp
    ensures Addressed(h, mac, len, dst)
  {
    forall i | 0 <= i < 20 ensures h[14 + i] == ip[i] { assert h[14 + i] == h[14..14 + |ip|][i]; }
    WideWithin(h, 34, udp, 0);
    WideWithin(h, 34, udp, 2);
    WideWithin(h, 34, udp, 4);
    WideWithin(h, 34, udp, 6);
    assert h[14] == ip[0] && h[15] == ip[1] && h[22] == ip[8] && h[23] == ip[9];
    assert h[26] == ip[12] && h[27] == ip[13] && h[28] == ip[14] && h[29] == ip[15];
    WideWithin(h, 14, ip, 2);
    WideWithin(h, 14, ip, 4);
    WideWithin(h, 14, ip, 6);
    WideWithin(h, 14, ip, 16);
    WideWithin(h, 14, ip, 18);
  }

  /** Where the parts of all headers lie. */
  lemma HeaderParts(h: seq<byte>, mac: seq<byte>, ip: seq<byte>, udp: seq<byte>)
    requires |mac| == 6 && |ip| == 20 && |udp| == 8 && h == mac + LOCAL_MAC + [0x08, 0x00] + ip + udp
    ensures |h| == 42 && h[0..6] == mac && h[6..12] == LOCAL_MAC && h[12] == 0x08 && h[13] == 0
    ensures h[14..14 + |ip|] == ip && h[34..34 + |udp|] == udp
  {
    assert mac + LOCAL_MAC + [0x08, 0x00] + ip + udp == mac + (LOCAL_MAC + ([0x08, 0x00] + (ip + udp)));
  }

  /** MAIN.  What a receiver reads out of the headers of a frame: sent from 10.1.0.2 port 8080 to the destination,
      its port 8080 and its MAC address, with the lengths that go with the payload. */
  lemma HeadersRead(mac: seq<byte>, len: nat, dst: u32)
    requires |mac| == 6 && len <= UDP_MAX_LEN
    ensures Addressed(Headers(mac, len, dst), mac, len, dst)
  {
    IpHeaderReads(len + 8, dst);
    UdpHeaderReads(len);
    HeaderParts(Headers(mac, len, dst), mac, IpHeader(len + 8, LOCAL_IP, dst), UdpHeader(len));
    FieldsWithin(Headers(mac, len, dst), mac, IpHeader(len + 8, LOCAL_IP, dst), UdpHeader(len), len, dst);
  }

  /** MAIN.  The IPv4 header inside every frame that leaves verifies in either byte order. */
  lemma EveryFrameVerifies(mac: seq<byte>, len: nat, dst: u32)
    requires |mac| == 6 && len <= UDP_MAX_LEN
    ensures var ip := Headers(mac, len, dst)[IP_AT..UDP_AT];
      Fold(LittleSum(ip)) == 0xffff && Fold(BigSum(ip)) == 0xffff
  {
    HeadersCarryLength(mac, len, dst);
    HeaderVerifies(len + 8, LOCAL_IP, dst);
  }

  /** MAIN.  `app_send` to the server.  Whatever the buffer held and whatever the scratch pointers are, the frame
      that leaves is exactly the headers for this destination and length, followed by the framed message; a
      message that is too long leaves nothing. */
  method AppSendToServer(pkt: array<byte>, message: seq<byte>, reqId: u16, dst: u32, mac: seq<byte>,
                         payload: seq<byte>, handle: seq<byte>) returns (ok: bool)
    requires pkt.Length >= PAYLOAD_AT + UDP_MAX_LEN && |mac| == 6 && |payload| == |handle| == 8
    modifies pkt
    ensures ok <==> |message| <= MAX_PAYLOAD_LEN
    ensures ok ==>
      var dg := Framed(reqId, message);
      && |dg| <= UDP_MAX_LEN
      && pkt[..PAYLOAD_AT] == Headers(mac, |dg|, dst)
      && Addressed(pkt[..PAYLOAD_AT], mac, |dg|, dst)
      && pkt[PAYLOAD_AT..PAYLOAD_AT + |dg|] == dg
      && PayloadLength(pkt[..]) == |dg|
  {
    if |message| > MAX_PAYLOAD_LEN {
      return false;
    }
    FillForServer(pkt, message, reqId);
    var total := TEXT_AT + |message| + |TAIL|;
    ghost var filled := pkt[..];
    InitNetSge(pkt, total, payload, handle);
    Kept(filled, pkt, SGE_AT, SGE_HANDLE_AT + 8, PAYLOAD_AT, PAYLOAD_AT + total);
    ghost var scratch := pkt[..];
    ok := UdpSend(pkt, total, dst, mac);
    Kept(scratch, pkt, 0, PAYLOAD_AT, PAYLOAD_AT, PAYLOAD_AT + total);
    HeadersCarryLength(mac, total, dst);
    HeadersRead(mac, total, dst);
    SubSlice(pkt, 0, PAYLOAD_AT, 38, 40);
    LengthStored(pkt);
  }

  /** MAIN.  `app_send` towards a client.  The reply keeps its length and every byte but the request id, under
      fresh headers; as its length field survives, the same buffer can be sent on to the next client. */
  method AppSendToClient(pkt: array<byte>, reqId: u16, dst: u32, mac: seq<byte>, ghost dg: seq<byte>,
                         payload: seq<byte>, handle: seq<byte>) returns (ok: bool)
    requires pkt.Length >= PAYLOAD_AT + UDP_MAX_LEN && |mac| == 6 && |payload| == |handle| == 8
    requires IsDatagram(dg) && Fits(dg)
    requires PayloadLength(pkt[..]) == |dg| && pkt[PAYLOAD_AT..PAYLOAD_AT + |dg|] == dg
    modifies pkt
    ensures ok
    ensures pkt[..PAYLOAD_AT] == Headers(mac, |dg|, dst)
    ensures Addressed(pkt[..PAYLOAD_AT], mac, |dg|, dst)
    ensures pkt[PAYLOAD_AT..PAYLOAD_AT + |dg|] == Readdressed(dg, reqId)
    ensures PayloadLength(pkt[..]) == |dg|
  {
    LengthStored(pkt);
    FillForClient(pkt, reqId, dg);
    var len := ReadBig16(pkt[38..40]) - 8;
    ghost var filled := pkt[..];
    InitNetSge(pkt, len, payload, handle);
    Kept(filled, pkt, SGE_AT, SGE_HANDLE_AT + 8, PAYLOAD_AT, PAYLOAD_AT + |dg|);
    ghost var scratch := pkt[..];
    ok := UdpSend(pkt, len, dst, mac);
    Kept(scratch, pkt, 0, PAYLOAD_AT, PAYLOAD_AT, PAYLOAD_AT + |dg|);
    HeadersCarryLength(mac, len, dst);
    HeadersRead(mac, len, dst);
    SubSlice(pkt, 0, PAYLOAD_AT, 38, 40);
    LengthStored(pkt);
  }
}
