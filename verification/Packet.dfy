/**
 The destination key on its three ways into the daemon: built by the kernel observer
 (interfire-ebpf-programs), carried by the ring record (interfire-ebpf) and parsed from
 the queued packet (packet.rs).
 */
module Packet {
  import opened Wrappers
  import Pending

  type Byte = n: int | 0 <= n < 256

  datatype Endian = Little | Big

  // ------------------------------------------------------------ integers in memory

  function Pow256(w: nat): nat {
    if w == 0 then 1 else 256 * Pow256(w - 1)
  }

  function FromLe(bs: seq<Byte>): nat {
    if bs == [] then 0 else bs[0] + 256 * FromLe(bs[1..])
  }

  function ToLe(n: nat, w: nat): (bs: seq<Byte>)
    ensures |bs| == w
  {
    if w == 0 then [] else [n % 256] + ToLe(n / 256, w - 1)
  }

  function Reversed(bs: seq<Byte>): (r: seq<Byte>)
    ensures |r| == |bs|
  {
    if bs == [] then [] else Reversed(bs[1..]) + [bs[0]]
  }

  /** `from_ne_bytes` on a host of the given byte order (`from_be_bytes` for `Big`). */
  function FromBytes(host: Endian, bs: seq<Byte>): nat {
    FromLe(if host.Little? then bs else Reversed(bs))
  }

  function ToBytes(host: Endian, n: nat, w: nat): (bs: seq<Byte>)
    ensures |bs| == w
  {
    if host.Little? then ToLe(n, w) else Reversed(ToLe(n, w))
  }

  lemma {:induction false} LeRoundTrip(bs: seq<Byte>)
    ensures FromLe(bs) < Pow256(|bs|) && ToLe(FromLe(bs), |bs|) == bs
  {
    if bs != [] {
      LeRoundTrip(bs[1..]);
      var n := FromLe(bs);
      assert n % 256 == bs[0] && n / 256 == FromLe(bs[1..]);
    }
  }

  lemma {:induction false} LeValue(n: nat, w: nat)
    requires n < Pow256(w)
    ensures FromLe(ToLe(n, w)) == n
  {
    if w > 0 {
      LeValue(n / 256, w - 1);
    }
  }

  lemma {:induction false} ReversedSnoc(bs: seq<Byte>, b: Byte)
    ensures Reversed(bs + [b]) == [b] + Reversed(bs)
  {
    if bs == [] {
      assert [b][1..] == [];
    } else {
      assert (bs + [b])[1..] == bs[1..] + [b];
      ReversedSnoc(bs[1..], b);
    }
  }

  lemma {:induction false} ReversedTwice(bs: seq<Byte>)
    ensures Reversed(Reversed(bs)) == bs
  {
    if bs != [] {
      ReversedTwice(bs[1..]);
      ReversedSnoc(Reversed(bs[1..]), bs[0]);
    }
  }

  /** Bytes survive being read as an integer and written back, on either host. */
  lemma BytesRoundTrip(host: Endian, bs: seq<Byte>)
    ensures FromBytes(host, bs) < Pow256(|bs|) && ToBytes(host, FromBytes(host, bs), |bs|) == bs
  {
    LeRoundTrip(if host.Little? then bs else Reversed(bs));
    ReversedTwice(bs);
  }

  lemma ValueRoundTrip(host: Endian, n: nat, w: nat)
    requires n < Pow256(w)
    ensures FromBytes(host, ToBytes(host, n, w)) == n
  {
    LeValue(n, w);
    ReversedTwice(ToLe(n, w));
  }

  // ------------------------------------------------------------ the kernel observer

  datatype ConnectEvent = ConnectEvent(pid: nat, startTicks: nat, ipv4: nat, port: nat, reserved: nat)

  /** `from_be`: reinterpret the in-memory bytes of a host integer as big-endian. */
  function FromBe(host: Endian, n: nat, w: nat): nat {
    FromBytes(Big, ToBytes(host, n, w))
  }

  /** The event for a `sockaddr_in` whose port and address bytes are in network order. */
  function Observe(host: Endian, tgid: nat, portBytes: seq<Byte>, addrBytes: seq<Byte>): ConnectEvent
    requires |portBytes| == 2 && |addrBytes| == 4
  {
    ConnectEvent(tgid, 0, FromBe(host, FromBytes(host, addrBytes), 4), FromBe(host, FromBytes(host, portBytes), 2), 0)
  }

  /** The 24-byte `repr(C)` record; bytes 4..8 are padding. */
  function Record(host: Endian, e: ConnectEvent, padding: seq<Byte>): (r: seq<Byte>)
    requires |padding| == 4
    ensures |r| == 24
  {
    ToBytes(host, e.pid, 4) + padding + ToBytes(host, e.startTicks, 8) +
    ToBytes(host, e.ipv4, 4) + ToBytes(host, e.port, 2) + ToBytes(host, e.reserved, 2)
  }

  function TryFromBytes(host: Endian, bs: seq<Byte>): Option<ConnectEvent> {
    if |bs| < 24 then None
    else Some(ConnectEvent(FromBytes(host, bs[0..4]), FromBytes(host, bs[8..16]), FromBytes(host, bs[16..20]),
                           FromBytes(host, bs[20..22]), FromBytes(host, bs[22..24])))
  }

  predicate Fits(e: ConnectEvent) {
    && e.pid < Pow256(4) && e.startTicks < Pow256(8) && e.ipv4 < Pow256(4)
    && e.port < Pow256(2) && e.reserved < Pow256(2)
  }

  /** The ring record gives back the very event written into it, whatever the padding holds. */
  lemma RecordRoundTrip(host: Endian, e: ConnectEvent, padding: seq<Byte>, trailing: seq<Byte>)
    requires Fits(e) && |padding| == 4
    ensures TryFromBytes(host, Record(host, e, padding) + trailing) == Some(e)
  {
    var r := Record(host, e, padding) + trailing;
    assert r[0..4] == ToBytes(host, e.pid, 4);
    assert r[8..16] == ToBytes(host, e.startTicks, 8);
    assert r[16..20] == ToBytes(host, e.ipv4, 4);
    assert r[20..22] == ToBytes(host, e.port, 2);
    assert r[22..24] == ToBytes(host, e.reserved, 2);
    ValueRoundTrip(host, e.pid, 4);
    ValueRoundTrip(host, e.startTicks, 8);
    ValueRoundTrip(host, e.ipv4, 4);
    ValueRoundTrip(host, e.port, 2);
    ValueRoundTrip(host, e.reserved, 2);
  }

  // ------------------------------------------------------------ the packet

  const IPPROTO_TCP: Byte := 6

  /** `tcp_destination`: the IPv4 header length is counted in 32-bit words. */
  function TcpDestination(p: seq<Byte>): Option<Pending.DestKey> {
    if |p| < 20 || p[0] / 16 != 4 then None
    else
      var ihl := p[0] % 16 * 4;
      if ihl < 20 || |p| < ihl + 4 || p[9] != IPPROTO_TCP then None
      else Some(Pending.DestKey(FromBytes(Big, p[16..20]), FromBytes(Big, p[ihl + 2..ihl + 4])))
  }

  /** `p` is an IPv4 TCP packet of `words` header words for this destination (RFC 791 and RFC 9293, section 3.1). */
  predicate Addressed(p: seq<Byte>, words: nat, portBytes: seq<Byte>, addrBytes: seq<Byte>) {
    && 5 <= words <= 15 && |p| >= 4 * words + 4
    && p[0] == 64 + words && p[9] == IPPROTO_TCP
    && p[16..20] == addrBytes && p[4 * words + 2..4 * words + 4] == portBytes
  }

  /** The key is recovered from exactly the packets that are addressed to some destination. */
  lemma ParsesExactlyAddressed(p: seq<Byte>)
    ensures TcpDestination(p).Some? <==>
            exists words :: 5 <= words <= 15 && |p| >= 4 * words + 4 &&
                            Addressed(p, words, p[4 * words + 2..4 * words + 4], p[16..20])
  {
    if TcpDestination(p).Some? {
      var words := p[0] % 16;
      assert Addressed(p, words, p[4 * words + 2..4 * words + 4], p[16..20]);
    }
  }

  /**
   On every host byte order and for every header length, the key that the observer builds and the
   ring record carries is the key parsed from the packet of the same connection.
   */
  lemma KeysAgree(host: Endian, tgid: nat, portBytes: seq<Byte>, addrBytes: seq<Byte>, padding: seq<Byte>,
                  p: seq<Byte>, words: nat)
    requires |portBytes| == 2 && |addrBytes| == 4 && |padding| == 4 && tgid < Pow256(4)
    requires Addressed(p, words, portBytes, addrBytes)
    ensures var e := TryFromBytes(host, Record(host, Observe(host, tgid, portBytes, addrBytes), padding));
            && e.Some? && e.value.pid == tgid && e.value.startTicks == 0
            && TcpDestination(p) == Some(Pending.DestKey(e.value.ipv4, e.value.port))
  {
    hide Pow256, FromBytes, ToBytes, Record, TryFromBytes, Observe, Fits;
    ObservesNetworkOrder(host, tgid, portBytes, addrBytes);
    var r := Record(host, Observe(host, tgid, portBytes, addrBytes), padding);
    RecordRoundTrip(host, Observe(host, tgid, portBytes, addrBytes), padding, []);
    assert r + [] == r;
    assert p[0] % 16 == words;
  }

  /** The observer's key is the network-order reading of the socket address. */
  lemma ObservesNetworkOrder(host: Endian, tgid: nat, portBytes: seq<Byte>, addrBytes: seq<Byte>)
    requires |portBytes| == 2 && |addrBytes| == 4 && tgid < Pow256(4)
    ensures Observe(host, tgid, portBytes, addrBytes) ==
            ConnectEvent(tgid, 0, FromBytes(Big, addrBytes), FromBytes(Big, portBytes), 0)
    ensures Fits(Observe(host, tgid, portBytes, addrBytes))
  {
    BytesRoundTrip(host, addrBytes);
    BytesRoundTrip(host, portBytes);
    BytesRoundTrip(Big, addrBytes);
    BytesRoundTrip(Big, portBytes);
    assert Pow256(8) > 0 && Pow256(2) > 0;
  }

  // ------------------------------------------------------------ byte by byte

  /** Two and four bytes, the most significant one first. */
  function Two(a: nat, b: nat): nat { 0x100 * a + b }
  function Four(a: nat, b: nat, c: nat, d: nat): nat { 0x100_0000 * a + 0x1_0000 * b + 0x100 * c + d }

  lemma BytesInWords(bs: seq<Byte>)
    requires |bs| == 2 || |bs| == 4
    ensures |bs| == 2 ==> FromBytes(Little, bs) == Two(bs[1], bs[0]) && FromBytes(Big, bs) == Two(bs[0], bs[1])
    ensures |bs| == 4 ==>
              && FromBytes(Little, bs) == Four(bs[3], bs[2], bs[1], bs[0])
              && FromBytes(Big, bs) == Four(bs[0], bs[1], bs[2], bs[3])
  {
    if |bs| == 2 {
      LeInWords(bs[0], [bs[1]]);
      LeInWords(bs[1], []);
      assert bs == [bs[0]] + ([bs[1]] + []);
      assert Reversed(bs) == [bs[1], bs[0]] by { ReversedPair(bs[0], bs[1]); }
      LeInWords(bs[1], [bs[0]]);
      LeInWords(bs[0], []);
      assert [bs[1], bs[0]] == [bs[1]] + ([bs[0]] + []);
    } else {
      var a, b, c, d := bs[0], bs[1], bs[2], bs[3];
      assert bs == [a] + ([b] + ([c] + ([d] + [])));
      FourInWords(a, b, c, d);
      FourInWords(d, c, b, a);
      ReversedPair(a, b);
      ReversedSnoc([a, b], c);
      ReversedSnoc([a, b] + [c], d);
      assert bs == [a, b] + [c] + [d];
      ReversedTwice([d] + ([c] + [b, a]));
      assert Reversed(bs) == [d] + ([c] + ([b] + ([a] + [])));
    }
  }

  lemma FourInWords(a: Byte, b: Byte, c: Byte, d: Byte)
    ensures FromLe([a] + ([b] + ([c] + ([d] + [])))) == Four(d, c, b, a)
  {
    LeInWords(d, []);
    LeInWords(c, [d] + []);
    LeInWords(b, [c] + ([d] + []));
    LeInWords(a, [b] + ([c] + ([d] + [])));
  }

  lemma LeInWords(b: Byte, rest: seq<Byte>)
    ensures FromLe([b] + rest) == b + 256 * FromLe(rest) && FromLe([]) == 0
  {
    assert ([b] + rest)[1..] == rest;
  }

  lemma ReversedPair(a: Byte, b: Byte)
    ensures Reversed([a, b]) == [b, a]
  {
    assert [a, b][1..] == [b] && [b][1..] == [];
    assert Reversed([b]) == [b];
  }

  /** The destination of a packet, byte by byte; a packet that is not IPv4 and TCP, or is too short, has none. */
  lemma DestinationInWords(p: seq<Byte>)
    ensures var port := 4 * (if p == [] then 0 else p[0] % 16) + 2;
            TcpDestination(p) ==
            if |p| >= 20 && 64 + 5 <= p[0] <= 64 + 15 && |p| >= port + 2 && p[9] == 6 then
              Some(Pending.DestKey(Four(p[16], p[17], p[18], p[19]), Two(p[port], p[port + 1])))
            else None
  {
    if TcpDestination(p).Some? {
      var port := 4 * (p[0] % 16) + 2;
      BytesInWords(p[16..20]);
      BytesInWords(p[port..port + 2]);
    }
    hide FromBytes;
  }

  /** Where the ring record of a little-endian host holds what; eight further bytes from the eighth on are the ticks. */
  lemma RecordInWords(bs: seq<Byte>)
    requires |bs| >= 24
    ensures var e := TryFromBytes(Little, bs);
            && e.Some?
            && e.value.pid == Four(bs[3], bs[2], bs[1], bs[0])
            && e.value.startTicks == FromBytes(Little, bs[8..16])
            && e.value.ipv4 == Four(bs[19], bs[18], bs[17], bs[16])
            && e.value.port == Two(bs[21], bs[20])
  {
    BytesInWords(bs[0..4]);
    BytesInWords(bs[16..20]);
    BytesInWords(bs[20..22]);
    hide FromBytes;
  }

  /** What the observer sends for the bytes of a socket address. */
  lemma ObservesInWords(host: Endian, tgid: nat, portBytes: seq<Byte>, addrBytes: seq<Byte>)
    requires |portBytes| == 2 && |addrBytes| == 4 && tgid < Pow256(4)
    ensures Observe(host, tgid, portBytes, addrBytes) ==
            ConnectEvent(
              tgid, 0, Four(addrBytes[0], addrBytes[1], addrBytes[2], addrBytes[3]),
              Two(portBytes[0], portBytes[1]), 0)
  {
    ObservesNetworkOrder(host, tgid, portBytes, addrBytes);
    BytesInWords(portBytes);
    BytesInWords(addrBytes);
    hide FromBytes, Observe;
  }
}
