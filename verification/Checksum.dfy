/** The RFC 1071 checksum and the IPv4/UDP packet built with it. */
module Checksum {
  import opened Common
  import opened Struct

  /** The sum of the big-endian 16-bit words, an odd last byte being padded with zero. */
  function WordSum(data: Bytes): nat {
    if |data| == 0 then 0
    else if |data| == 1 then 256 * data[0]
    else 256 * data[0] + data[1] + WordSum(data[2..])
  }

  /** Ones'-complement folding: the carries are added back until 16 bits are left. */
  function Fold(total: nat): (r: nat)
    ensures r < 0x1_0000
    ensures r % 65535 == total % 65535
    ensures r == 0 <==> total == 0
    decreases total
  {
    if total / 0x1_0000 == 0 then total
    else
      FoldOnce(total);
      Fold(total % 0x1_0000 + total / 0x1_0000)
  }

  /** One round keeps the sum modulo 65535 and makes it smaller, but not zero. */
  lemma FoldOnce(total: nat)
    requires total / 0x1_0000 != 0
    ensures 0 < total % 0x1_0000 + total / 0x1_0000 < total
    ensures (total % 0x1_0000 + total / 0x1_0000) % 65535 == total % 65535
  {
    var h, l := total / 0x1_0000, total % 0x1_0000;
    assert total == 65535 * h + (h + l);
  }

  /** The source's internet_checksum. */
  method InternetChecksum(data: Bytes) returns (r: nat)
    ensures r == 65535 - Fold(WordSum(data))
    ensures (r + WordSum(data)) % 65535 == 0
  {
    hide WordSum;
    var total := SumWords(data);
    ghost var sum := total;
    while total / 0x1_0000 != 0
      invariant Fold(total) == Fold(sum)
      decreases total
    {
      total := total % 0x1_0000 + total / 0x1_0000;
    }
    Complement(sum);
    return 65535 - total;
  }

  method SumWords(data: Bytes) returns (sum: nat)
    ensures sum == WordSum(data)
  {
    var padded := if |data| % 2 == 1 then data + [0] else data;
    Padding(data);
    sum := 0;
    var i := 0;
    while i < |padded|
      invariant 0 <= i <= |padded| && i % 2 == 0
      invariant sum + WordSum(padded[i..]) == WordSum(data)
    {
      assert padded[i..][2..] == padded[i + 2..];
      sum := sum + 256 * (padded[i] as int) + padded[i + 1] as int;
      i := i + 2;
    }
  }

  lemma Complement(s: nat)
    ensures (65535 - Fold(s) + s) % 65535 == 0
  {
    hide Fold;
    var k := s / 65535 - Fold(s) / 65535;
    assert 65535 - Fold(s) + s == 65535 * (k + 1);
  }

  lemma {:induction false} Padding(data: Bytes)
    ensures WordSum(if |data| % 2 == 1 then data + [0] else data) == WordSum(data)
    decreases |data|
  {
    if |data| >= 2 {
      Padding(data[2..]);
      assert (data + [0])[2..] == data[2..] + [0];
    }
  }

  lemma {:induction false} WordSumAppend(a: Bytes, b: Bytes)
    requires |a| % 2 == 0
    ensures WordSum(a + b) == WordSum(a) + WordSum(b)
    decreases |a|
  {
    if a == [] {
      assert a + b == b;
    } else {
      WordSumAppend(a[2..], b);
      assert (a + b)[2..] == a[2..] + b;
    }
  }

  lemma WordOf(n: nat)
    requires n < 0x1_0000
    ensures WordSum(BE(n, 2)) == n
  {
    assert BE(n, 2) == BE(n / 256, 1) + [n % 256];
    assert BE(n / 256, 1) == BE(n / 256 / 256, 0) + [n / 256 % 256];
    assert BE(n, 2)[2..] == [];
  }

  /** What a receiver computes over data that includes its checksum. */
  predicate ChecksOut(data: Bytes) {
    Fold(WordSum(data)) == 65535
  }

  /** A field holding the checksum of the data with that field zero, or 0xFFFF in place of 0, makes the
      whole check out. */
  lemma SelfVerifying(before: Bytes, after: Bytes, field: nat)
    requires |before| % 2 == 0
    requires var c := 65535 - Fold(WordSum(before + [0, 0] + after)); field == c || (c == 0 && field == 65535)
    ensures ChecksOut(before + BE(field, 2) + after)
  {
    hide Fold;
    var zero := before + [0, 0] + after;
    assert zero == before + ([0, 0] + after);
    assert before + BE(field, 2) + after == before + (BE(field, 2) + after);
    WordSumAppend(before, [0, 0] + after);
    WordSumAppend(before, BE(field, 2) + after);
    WordSumAppend([0, 0], after);
    WordSumAppend(BE(field, 2), after);
    WordOf(field);
    ZeroWord();
    FoldComplement(WordSum(zero), field);
  }

  lemma ZeroWord()
    ensures WordSum([0, 0]) == 0
  {
    var none: Bytes := [];
    var zeros: Bytes := [0, 0];
    assert zeros[2..] == none && WordSum(zeros) == WordSum(none);
  }

  lemma FoldComplement(s: nat, field: nat)
    requires field == 65535 - Fold(s) || (Fold(s) == 65535 && field == 65535)
    ensures Fold(s + field) == 65535
  {
    hide Fold;
    assert s == 0 ==> Fold(s) == 0;
    var g := Fold(s + field);
    var k := s / 65535 - Fold(s) / 65535;
    assert s + field == 65535 * k + (Fold(s) + field);
    assert s + field == 65535 * (k + 1) || s + field == 65535 * (k + 2);
    assert g % 65535 == 0 && 0 < g < 0x1_0000;
  }

  // ---------------------------------------------------------------------------------- the packet

  const UDP_PROTOCOL: byte := 17

  datatype BuildError = BadPort | PayloadTooLarge | BadPacketId

  function UdpPrefix(source: nat, destination: nat, length: nat): Bytes {
    BE(source, 2) + BE(destination, 2) + BE(length, 2)
  }

  function PseudoHeader(src: Bytes, dst: Bytes, length: nat): Bytes {
    src + dst + [0, UDP_PROTOCOL] + BE(length, 2)
  }

  function IpPrefix(length: nat, id: nat): Bytes {
    [0x45, 0] + BE(length, 2) + BE(id, 2) + [0x40, 0] + [64, UDP_PROTOCOL]
  }

  /** The layout of the packet, given the two checksum fields. */
  function Layout(src: Bytes, source: nat, dst: Bytes, destination: nat, payload: Bytes, id: nat, ip: nat, udp: nat): Bytes {
    IpPrefix(28 + |payload|, id) + BE(ip, 2) + (src + dst)
    + (UdpPrefix(source, destination, 8 + |payload|) + BE(udp, 2) + payload)
  }

  /** The packet byte by byte: version 4 with a 20-byte header, the total length, the id, no fragmenting, 64
      hops, UDP, the addresses, the ports, the UDP length, the payload. Bytes 10 and 11 are the header
      checksum, bytes 26 and 27 the UDP checksum. */
  predicate Placed(src: Bytes, source: nat, dst: Bytes, destination: nat, payload: Bytes, id: nat, p: Bytes) {
    && |p| == 28 + |payload|
    && p[0] == 0x45 && p[1] == 0 && Word(p, 2) == 28 + |payload|
    && Word(p, 4) == id && p[6] == 0x40 && p[7] == 0 && p[8] == 64 && p[9] == 17
    && p[12..16] == src && p[16..20] == dst
    && Word(p, 20) == source && Word(p, 22) == destination && Word(p, 24) == 8 + |payload|
    && p[28..] == payload
  }

  /** The big-endian word at offset i. */
  function Word(p: Bytes, i: nat): nat
    requires i + 2 <= |p|
  {
    256 * p[i] as int + p[i + 1] as int
  }

  lemma WordBytes(n: nat)
    requires n < 0x1_0000
    ensures 256 * BE(n, 2)[0] as int + BE(n, 2)[1] as int == n
  {
    BEAt(n, 2, 0);
    BEAt(n, 2, 1);
    Powers();
    assert Pow256(0) == 1;
  }

  lemma WordIn(p: Bytes, i: nat, n: nat)
    requires i + 2 <= |p| && n < 0x1_0000 && p[i..i + 2] == BE(n, 2)
    ensures Word(p, i) == n
  {
    WordBytes(n);
    hide BE;
    assert p[i] == p[i..i + 2][0] && p[i + 1] == p[i..i + 2][1];
  }

  lemma FiveWords(h: Bytes, b: Bytes, c: Bytes, g: Bytes, t: Bytes)
    requires |h| == |b| == |c| == |g| == |t| == 2
    ensures var a := h + b + c + g + t;
            && |a| == 10 && a[0] == h[0] && a[1] == h[1] && a[2..4] == b && a[4..6] == c
            && a[6] == g[0] && a[7] == g[1] && a[8] == t[0] && a[9] == t[1]
  {
  }

  lemma ThreeWords(a: Bytes, b: Bytes, c: Bytes)
    requires |a| == |b| == |c| == 2
    ensures var d := a + b + c; |d| == 6 && d[0..2] == a && d[2..4] == b && d[4..6] == c
  {
  }

  lemma UdpParts(source: nat, destination: nat, length: nat)
    ensures var d := UdpPrefix(source, destination, length);
            |d| == 6 && d[0..2] == BE(source, 2) && d[2..4] == BE(destination, 2) && d[4..6] == BE(length, 2)
  {
    hide BE;
    ThreeWords(BE(source, 2), BE(destination, 2), BE(length, 2));
  }

  lemma IpParts(length: nat, id: nat)
    ensures var a := IpPrefix(length, id);
            && |a| == 10 && a[0] == 0x45 && a[1] == 0 && a[2..4] == BE(length, 2) && a[4..6] == BE(id, 2)
            && a[6] == 0x40 && a[7] == 0 && a[8] == 64 && a[9] == 17
  {
    hide BE;
    FiveWords([0x45, 0], BE(length, 2), BE(id, 2), [0x40, 0], [64, UDP_PROTOCOL]);
  }

  lemma PacketParts(a: Bytes, b: Bytes, c: Bytes, d: Bytes, e: Bytes, f: Bytes, p: Bytes)
    requires |a| == 10 && |b| == 2 && |c| == 8 && |d| == 6 && |e| == 2 && p == a + b + c + (d + e + f)
    ensures |p| == 28 + |f| && p[0..10] == a && p[12..20] == c && p[20..26] == d && p[28..] == f
  {
  }

  /** The layout puts every field where it belongs. */
  lemma LayoutPlaced(src: Bytes, source: nat, dst: Bytes, destination: nat, payload: Bytes, id: nat, ip: nat, udp: nat)
    requires |src| == 4 && |dst| == 4 && source < 0x1_0000 && destination < 0x1_0000 && |payload| <= 65507 && id < 0x1_0000
    ensures Placed(src, source, dst, destination, payload, id, Layout(src, source, dst, destination, payload, id, ip, udp))
  {
    var a, d := IpPrefix(28 + |payload|, id), UdpPrefix(source, destination, 8 + |payload|);
    IpParts(28 + |payload|, id);
    UdpParts(source, destination, 8 + |payload|);
    var p := Layout(src, source, dst, destination, payload, id, ip, udp);
    PacketParts(a, BE(ip, 2), src + dst, d, BE(udp, 2), payload, p);
    hide BE, IpPrefix, UdpPrefix, Layout;
    PlacesOf(p, a, src, dst, d);
    WordIn(p, 2, 28 + |payload|);
    WordIn(p, 4, id);
    WordIn(p, 20, source);
    WordIn(p, 22, destination);
    WordIn(p, 24, 8 + |payload|);
  }

  /** The pseudo header is made of the packet's own addresses, protocol and UDP length. */
  lemma LayoutPseudo(src: Bytes, source: nat, dst: Bytes, destination: nat, payload: Bytes, id: nat, ip: nat, udp: nat)
    requires |src| == 4 && |dst| == 4
    ensures var p := Layout(src, source, dst, destination, payload, id, ip, udp);
            |p| >= 28 && p[12..20] + [0, p[9]] + p[24..26] == PseudoHeader(src, dst, 8 + |payload|)
  {
    var a, d := IpPrefix(28 + |payload|, id), UdpPrefix(source, destination, 8 + |payload|);
    IpParts(28 + |payload|, id);
    UdpParts(source, destination, 8 + |payload|);
    var p := Layout(src, source, dst, destination, payload, id, ip, udp);
    PacketParts(a, BE(ip, 2), src + dst, d, BE(udp, 2), payload, p);
    hide BE, IpPrefix, UdpPrefix, Layout;
    PlacesOf(p, a, src, dst, d);
  }

  lemma Within(p: Bytes, part: Bytes, at: nat, i: nat, j: nat)
    requires at + |part| <= |p| && p[at..at + |part|] == part && i <= j <= |part|
    ensures p[at + i..at + j] == part[i..j]
    ensures i < |part| ==> p[at + i] == part[i]
  {
    forall k | 0 <= k < |part|
      ensures p[at + k] == part[k]
    {
      assert p[at..at + |part|][k] == p[at + k];
    }
    var inner := p[at + i..at + j];
    assert forall k :: 0 <= k < j - i ==> inner[k] == p[at + (i + k)];
    assert inner == part[i..j];
  }

  lemma PlacesOf(p: Bytes, a: Bytes, src: Bytes, dst: Bytes, d: Bytes)
    requires |p| >= 28 && |a| == 10 && |d| == 6 && |src| == |dst| == 4
    requires p[0..10] == a && p[12..20] == src + dst && p[20..26] == d
    ensures p[2..4] == a[2..4] && p[4..6] == a[4..6]
    ensures p[0] == a[0] && p[1] == a[1] && p[6] == a[6] && p[7] == a[7] && p[8] == a[8] && p[9] == a[9]
    ensures p[12..16] == src && p[16..20] == dst
    ensures p[20..22] == d[0..2] && p[22..24] == d[2..4] && p[24..26] == d[4..6]
  {
    Within(p, a, 0, 0, 0);
    Within(p, a, 0, 1, 1);
    Within(p, a, 0, 2, 4);
    Within(p, a, 0, 4, 6);
    Within(p, a, 0, 6, 6);
    Within(p, a, 0, 7, 7);
    Within(p, a, 0, 8, 8);
    Within(p, a, 0, 9, 9);
    Within(p, src + dst, 12, 0, 4);
    Within(p, src + dst, 12, 4, 8);
    Within(p, d, 20, 0, 2);
    Within(p, d, 20, 2, 4);
    Within(p, d, 20, 4, 6);
    assert (src + dst)[0..4] == src && (src + dst)[4..8] == dst;
  }

  /** The source's build_ipv4_udp_packet: the header checks out, and so does the UDP segment behind its
      pseudo header, even when the computed checksum is 0 and 0xFFFF is sent instead. */
  method BuildPacket(src: Bytes, source: int, dst: Bytes, destination: int, payload: Bytes, id: int)
    returns (r: Result<Bytes, BuildError>)
    requires |src| == 4 && |dst| == 4
    ensures r.Ok? <==> 0 <= source <= 65535 && 0 <= destination <= 65535 && |payload| <= 65507 && 0 <= id <= 65535
    ensures r == Err(BadPort) <==> !(0 <= source <= 65535 && 0 <= destination <= 65535)
    ensures r == Err(PayloadTooLarge) <==> 0 <= source <= 65535 && 0 <= destination <= 65535 && |payload| > 65507
    ensures r.Ok? ==> Placed(src, source, dst, destination, payload, id, r.value)
    ensures r.Ok? ==>
              && |r.value| == 28 + |payload|
              && r.value == Layout(src, source, dst, destination, payload, id, FromBE(r.value[10..12]), FromBE(r.value[26..28]))
              && ChecksOut(r.value[..20])
              && ChecksOut(r.value[12..20] + [0, r.value[9]] + r.value[24..26] + r.value[20..])
              && FromBE(r.value[26..28]) != 0
  {
    if !(0 <= source <= 65535) || !(0 <= destination <= 65535) {
      return Err(BadPort);
    }
    if |payload| > 65507 {
      return Err(PayloadTooLarge);
    }
    if !(0 <= id <= 65535) {
      return Err(BadPacketId);
    }
    var udpLength := 8 + |payload|;
    var prefix := UdpPrefix(source, destination, udpLength);
    var pseudo := PseudoHeader(src, dst, udpLength);
    var udp := InternetChecksum(pseudo + (prefix + [0, 0]) + payload);
    if udp == 0 {
      udp := 0xFFFF;
    }
    var ipPrefix := IpPrefix(20 + udpLength, id);
    var ip := InternetChecksum(ipPrefix + [0, 0] + (src + dst));
    var packet := ipPrefix + BE(ip, 2) + (src + dst) + (prefix + BE(udp, 2) + payload);
    UdpChecks(pseudo, prefix, payload, udp);
    IpChecks(ipPrefix, src + dst, ip);
    Slices(ipPrefix, BE(ip, 2), src + dst, prefix, BE(udp, 2), payload, packet);
    Powers();
    ReadWritten(ip, 2);
    ReadWritten(udp, 2);
    assert pseudo + packet[20..] == pseudo + (prefix + BE(udp, 2) + payload);
    LayoutPlaced(src, source, dst, destination, payload, id, ip, udp);
    LayoutPseudo(src, source, dst, destination, payload, id, ip, udp);
    return Ok(packet);
  }

  lemma UdpChecks(pseudo: Bytes, prefix: Bytes, payload: Bytes, udp: nat)
    requires |pseudo| == 12 && |prefix| == 6
    requires var c := 65535 - Fold(WordSum(pseudo + (prefix + [0, 0]) + payload)); udp == if c == 0 then 65535 else c
    ensures ChecksOut(pseudo + (prefix + BE(udp, 2) + payload))
  {
    hide Fold;
    assert pseudo + (prefix + [0, 0]) + payload == pseudo + prefix + [0, 0] + payload;
    assert pseudo + (prefix + BE(udp, 2) + payload) == pseudo + prefix + BE(udp, 2) + payload;
    SelfVerifying(pseudo + prefix, payload, udp);
  }

  lemma IpChecks(ipPrefix: Bytes, addresses: Bytes, ip: nat)
    requires |ipPrefix| == 10
    requires ip == 65535 - Fold(WordSum(ipPrefix + [0, 0] + addresses))
    ensures ChecksOut(ipPrefix + BE(ip, 2) + addresses)
  {
    hide Fold;
    SelfVerifying(ipPrefix, addresses, ip);
  }

  lemma Slices(a: Bytes, b: Bytes, c: Bytes, d: Bytes, e: Bytes, f: Bytes, packet: Bytes)
    requires |a| == 10 && |b| == 2 && |c| == 8 && |d| == 6 && |e| == 2
    requires packet == a + b + c + (d + e + f)
    ensures |packet| == 28 + |f|
    ensures packet[..20] == a + b + c && packet[20..] == d + e + f
    ensures packet[10..12] == b && packet[26..28] == e
  {
  }
}
