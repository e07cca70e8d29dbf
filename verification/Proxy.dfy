/**
 Carrying UDP packets over a byte stream, proxy/internal: a nine-byte header with the kind and
 length of the address, the port and the length of the payload, then the address, then the
 payload.
 */
module Proxy {
  import opened Base

  const ADDR_TYPE_IPV4: byte := 1
  const ADDR_TYPE_IPV6: byte := 2
  const HEADER_SIZE := 9

  /** `netip.Addr`: the zero value, an IPv4 address, or an IPv6 address with an optional zone. */
  datatype Addr = NoAddr | V4(ip: bytes) | V6(ip: bytes, zone: bytes)

  type Port = x: int | 0 <= x < 0x1_0000

  datatype Packet = Packet(addr: Addr, port: Port, payload: bytes)

  datatype Header = Header(version: byte, addrType: byte, addrLen: byte, port: Port, length: nat)

  predicate WellFormed(a: Addr) {
    match a
    case NoAddr => true
    case V4(ip) => |ip| == 4
    case V6(ip, _) => |ip| == 16
  }

  // ---------- Writing ----------

  function AsSlice(a: Addr): bytes {
    match a
    case NoAddr => []
    case V4(ip) => ip
    case V6(ip, _) => ip
  }

  /** `SetAddr`, which leaves version and length as they are. */
  function WithAddr(h: Header, a: Addr, port: Port): Header {
    h.(addrType := if a.V6? then ADDR_TYPE_IPV6 else ADDR_TYPE_IPV4, addrLen := |AsSlice(a)| % 256, port := port)
  }

  function HeaderBytes(h: Header): (r: bytes)
    ensures |r| == HEADER_SIZE
  {
    [h.version, h.addrType, h.addrLen] + ToBigEndian(h.port, 2) + ToBigEndian(h.length, 4)
  }

  function HeaderFor(p: Packet): Header {
    WithAddr(Header(0, 0, 0, 0, |p.payload| % 0x1_0000_0000), p.addr, p.port)
  }

  function PacketBytes(p: Packet): bytes {
    HeaderBytes(HeaderFor(p)) + AsSlice(p.addr) + p.payload
  }

  function Stream(ps: seq<Packet>): bytes {
    if ps == [] then [] else PacketBytes(ps[0]) + Stream(ps[1..])
  }

  // ---------- Reading ----------

  function AddrFromSlice(ip: bytes): Option<Addr> {
    if |ip| == 4 then Some(V4(ip)) else if |ip| == 16 then Some(V6(ip, [])) else None
  }

  /**
   How long a payload may be: the server's buffer doubles once when a packet is too long for it,
   the client's caller brings a slice.
   */
  datatype Policy = Doubling(size: nat) | Fixed(size: nat) {
    function For(length: nat): Policy {
      if Doubling? && length > size then Doubling(2 * size) else this
    }
  }

  datatype Got = Got(packet: Packet, rest: bytes, policy: Policy) | Error | Panics

  /** Header, then address, then payload; a stream that ends early is an error. */
  function ReadPacket(input: bytes, policy: Policy): (r: Got)
    ensures r.Got? ==> |r.rest| < |input|
  {
    if |input| < HEADER_SIZE then Error
    else
      var addrType, addrLen := input[1], input[2];
      var port: Port, length := PortOf(input[3..5]), FromBigEndian(input[5..9]);
      if addrType != ADDR_TYPE_IPV4 && addrType != ADDR_TYPE_IPV6 then Error
      else if |input| < HEADER_SIZE + addrLen as int then Error
      else
        var body := input[HEADER_SIZE + addrLen as int..];
        match AddrFromSlice(input[HEADER_SIZE..HEADER_SIZE + addrLen as int])
        case None => Error
        case Some(addr) => ReadPayload(addr, port, length, body, policy)
  }

  function PortOf(bs: bytes): Port
    requires |bs| == 2
  {
    FromBigEndianBound(bs);
    assert Pow256(2) == 0x1_0000;
    FromBigEndian(bs)
  }

  function ReadPayload(addr: Addr, port: Port, length: nat, body: bytes, policy: Policy): Got {
    var policy' := policy.For(length);
    if length > policy'.size then Panics
    else if length > |body| then Error
    else Got(Packet(addr, port, body[..length]), body[length..], policy')
  }

  datatype End = Stopped | Crashed

  datatype Reading = Reading(packets: seq<Packet>, end: End)

  /** The reading loop until its first error. */
  function ReadAll(input: bytes, policy: Policy): Reading
    decreases |input|
  {
    match ReadPacket(input, policy)
    case Error => Reading([], Stopped)
    case Panics => Reading([], Crashed)
    case Got(p, rest, policy') =>
      var more := ReadAll(rest, policy');
      Reading([p] + more.packets, more.end)
  }

  // ---------- One packet ----------

  /** Packets the header can describe: an address without a zone and a length of 32 bits. */
  predicate Sendable(p: Packet) {
    WellFormed(p.addr) && !p.addr.NoAddr? && (p.addr.V6? ==> p.addr.zone == []) && |p.payload| < 0x1_0000_0000
  }

  lemma HeaderFields(p: Packet, tail: bytes)
    requires WellFormed(p.addr) && |p.payload| < 0x1_0000_0000
    ensures var input := HeaderBytes(HeaderFor(p)) + tail;
      && input[1] == HeaderFor(p).addrType && input[2] == |AsSlice(p.addr)|
      && PortOf(input[3..5]) == p.port && FromBigEndian(input[5..9]) == |p.payload|
      && input[HEADER_SIZE..] == tail
  {
    var h := HeaderFor(p);
    var input := HeaderBytes(h) + tail;
    assert Pow256(2) == 0x1_0000 && Pow256(4) == 0x1_0000_0000;
    BigEndianRoundTrip(h.port, 2);
    BigEndianRoundTrip(h.length, 4);
    assert input[3..5] == ToBigEndian(h.port, 2);
    assert input[5..9] == ToBigEndian(h.length, 4);
  }

  /**
   The layout of a packet on the stream: version, kind of address, its length, the port in two
   bytes, the length of the payload in four, the address, the payload.
   */
  lemma WireLayout(p: Packet)
    requires Sendable(p)
    ensures var w, ip := PacketBytes(p), p.addr.ip;
      && |w| == 9 + |ip| + |p.payload|
      && w[0] == 0 && w[1] == (if p.addr.V4? then 1 else 2) && w[2] == (if p.addr.V4? then 4 else 16)
      && p.port == 256 * (w[3] as int) + w[4]
      && |p.payload| == 16777216 * (w[5] as int) + 65536 * (w[6] as int) + 256 * (w[7] as int) + w[8]
      && w[9..9 + |ip|] == ip && w[9 + |ip|..] == p.payload
  {
    var w, ip := PacketBytes(p), p.addr.ip;
    assert w == HeaderBytes(HeaderFor(p)) + (ip + p.payload);
    HeaderFields(p, ip + p.payload);
    FourBytes(w[5], w[6], w[7], w[8]);
    assert w[5..9] == [w[5], w[6], w[7], w[8]];
    TwoBytes(w[3], w[4]);
    assert w[3..5] == [w[3], w[4]];
    assert w[9..] == ip + p.payload;
    assert w[9..9 + |ip|] == w[9..][..|ip|] && w[9 + |ip|..] == w[9..][|ip|..];
  }

  lemma TwoBytes(a: byte, b: byte)
    ensures FromBigEndian([a, b]) == 256 * a + b
  {
    MostSignificantFirst([a, b]);
    MostSignificantFirst([b]);
    assert [a, b][1..] == [b] && [b][1..] == [];
    assert Pow256(0) == 1 && Pow256(1) == 256;
  }

  /** What arrives of a packet, whatever follows it and however much of that is there. */
  lemma PacketArrives(p: Packet, tail: bytes, policy: Policy)
    requires WellFormed(p.addr) && !p.addr.NoAddr? && |p.payload| < 0x1_0000_0000
    requires |p.payload| <= policy.For(|p.payload|).size
    ensures ReadPacket(PacketBytes(p) + tail, policy)
         == Got(if p.addr.V6? then p.(addr := V6(p.addr.ip, [])) else p, tail, policy.For(|p.payload|))
  {
    hide HeaderBytes, FromBigEndian, PortOf;
    var ip := AsSlice(p.addr);
    var input := PacketBytes(p) + tail;
    assert input == HeaderBytes(HeaderFor(p)) + (ip + (p.payload + tail));
    HeaderFields(p, ip + (p.payload + tail));
    var after := input[HEADER_SIZE..];
    assert input[HEADER_SIZE..HEADER_SIZE + |ip|] == after[..|ip|] == ip;
    assert input[HEADER_SIZE + |ip|..] == after[|ip|..] == p.payload + tail;
  }

  /** A packet that fits survives the stream exactly when its address is one without a zone. */
  lemma SurvivesExactly(p: Packet, tail: bytes, policy: Policy)
    requires WellFormed(p.addr) && |p.payload| < 0x1_0000_0000 && |p.payload| <= policy.For(|p.payload|).size
    ensures ReadPacket(PacketBytes(p) + tail, policy) == Got(p, tail, policy.For(|p.payload|)) <==> Sendable(p)
  {
    hide HeaderBytes, FromBigEndian, PortOf;
    if p.addr.NoAddr? {
      assert PacketBytes(p) + tail == HeaderBytes(HeaderFor(p)) + (p.payload + tail);
      HeaderFields(p, p.payload + tail);
    } else {
      PacketArrives(p, tail, policy);
    }
  }

  /** A packet that is too long for the buffer panics as soon as its header and address are there. */
  lemma TooLongPanics(p: Packet, tail: bytes, policy: Policy)
    requires Sendable(p) && |p.payload| > policy.For(|p.payload|).size
    ensures ReadPacket(PacketBytes(p) + tail, policy) == Panics
  {
    hide HeaderBytes, FromBigEndian, PortOf;
    var ip := AsSlice(p.addr);
    var input := PacketBytes(p) + tail;
    assert input == HeaderBytes(HeaderFor(p)) + (ip + (p.payload + tail));
    HeaderFields(p, ip + (p.payload + tail));
    var after := input[HEADER_SIZE..];
    assert input[HEADER_SIZE..HEADER_SIZE + |ip|] == after[..|ip|] == ip;
  }

  /** The server reads a packet of up to twice its buffer, which doubles for it, and panics on a longer one. */
  lemma ServerReadsExactly(p: Packet, tail: bytes, size: nat)
    requires Sendable(p)
    ensures ReadPacket(PacketBytes(p) + tail, Doubling(size)) ==
      if |p.payload| <= size then Got(p, tail, Doubling(size))
      else if |p.payload| <= 2 * size then Got(p, tail, Doubling(2 * size))
      else Panics
  {
    hide ReadPacket, PacketBytes;
    SendableMeans(p);
    if |p.payload| <= 2 * size {
      PacketArrives(p, tail, Doubling(size));
    } else {
      TooLongPanics(p, tail, Doubling(size));
    }
  }

  /** The client reads a packet that fits the slice it was given, and panics on a longer one. */
  lemma ClientReadsExactly(p: Packet, tail: bytes, size: nat)
    requires Sendable(p)
    ensures ReadPacket(PacketBytes(p) + tail, Fixed(size)) ==
      if |p.payload| <= size then Got(p, tail, Fixed(size)) else Panics
  {
    hide ReadPacket, PacketBytes;
    SendableMeans(p);
    if |p.payload| <= size {
      PacketArrives(p, tail, Fixed(size));
    } else {
      TooLongPanics(p, tail, Fixed(size));
    }
  }

  /** A packet of which something is missing is an error, never another packet. */
  lemma CutPacketIsError(p: Packet, n: nat, policy: Policy)
    requires Sendable(p) && |p.payload| <= policy.For(|p.payload|).size && n < |PacketBytes(p)|
    ensures ReadPacket(PacketBytes(p)[..n], policy) == Error
  {
    hide HeaderBytes, FromBigEndian, PortOf;
    var ip, cut := AsSlice(p.addr), PacketBytes(p)[..n];
    if n >= HEADER_SIZE {
      var after := (ip + p.payload)[..n - HEADER_SIZE];
      assert PacketBytes(p) == HeaderBytes(HeaderFor(p)) + (ip + p.payload);
      assert cut == HeaderBytes(HeaderFor(p)) + after;
      HeaderFields(p, after);
      if n >= HEADER_SIZE + |ip| {
        assert cut[HEADER_SIZE..HEADER_SIZE + |ip|] == after[..|ip|] == ip;
      }
    }
  }

  /** The two, or the sixteen bytes of an address, as the header announces them. */
  predicate AddressThere(input: bytes) {
    |input| >= 9 && (input[1] == 1 || input[1] == 2) && (input[2] == 4 || input[2] == 16) && |input| >= 9 + input[2] as int
  }

  /**
   Any bytes: a packet is read exactly if the header is there, the kind of address is known, an
   address of four or sixteen bytes is there, and the payload fits and is there.
   */
  lemma ReadExactly(input: bytes, policy: Policy)
    ensures ReadPacket(input, policy).Got? <==>
      && AddressThere(input)
      && var length := FromBigEndian(input[5..9]);
        length <= policy.For(length).size && |input| >= 9 + input[2] as int + length
    ensures ReadPacket(input, policy).Panics? <==>
      AddressThere(input) && FromBigEndian(input[5..9]) > policy.For(FromBigEndian(input[5..9])).size
    ensures ReadPacket(input, policy).Got? ==>
      var r, body, length := ReadPacket(input, policy), 9 + input[2] as int, FromBigEndian(input[5..9]);
      && r.packet.payload == input[body..body + length] && r.rest == input[body + length..]
      && r.packet.port == FromBigEndian(input[3..5])
      && r.packet.addr == (if input[2] == 4 then V4(input[9..body]) else V6(input[9..body], []))
  {
    hide FromBigEndian;
    if AddressThere(input) {
      var body, length := 9 + input[2] as int, FromBigEndian(input[5..9]);
      if |input| >= body + length {
        assert input[body..][..length] == input[body..body + length] && input[body..][length..] == input[body + length..];
      }
    }
  }

  // ---------- Streams ----------

  predicate AllSendable(ps: seq<Packet>) {
    forall i :: 0 <= i < |ps| ==> Sendable(ps[i])
  }

  /** Every packet fits the buffer as it has grown by then. */
  predicate AllFit(ps: seq<Packet>, policy: Policy)
    decreases |ps|
  {
    ps == [] ||
    (var policy' := policy.For(|ps[0].payload|);
     |ps[0].payload| <= policy'.size && AllFit(ps[1..], policy'))
  }

  lemma StreamStep(ps: seq<Packet>, n: nat)
    requires ps != [] && n <= |Stream(ps)|
    ensures Stream(ps)[..n] == if n < |PacketBytes(ps[0])| then PacketBytes(ps[0])[..n]
      else PacketBytes(ps[0]) + Stream(ps[1..])[..n - |PacketBytes(ps[0])|]
  {
    hide PacketBytes;
  }

  /**
   Whatever part of the written bytes has arrived, reading it yields exactly the packets that
   have arrived completely, in order, and then waits for more: the reader never loses its place.
   */
  lemma {:induction false} PrefixReadsPrefix(ps: seq<Packet>, n: nat, policy: Policy)
    requires AllSendable(ps) && AllFit(ps, policy) && n <= |Stream(ps)|
    ensures var r := ReadAll(Stream(ps)[..n], policy);
      && r.end == Stopped && r.packets <= ps && |Stream(r.packets)| <= n
      && (|r.packets| < |ps| ==> n < |Stream(r.packets)| + |PacketBytes(ps[|r.packets|])|)
    decreases |ps|
  {
    hide ReadPacket, PacketBytes, Sendable;
    if ps == [] {
      NothingToRead(policy);
      assert Stream(ps)[..n] == [];
    } else {
      StreamStep(ps, n);
      var p, size := ps[0], |PacketBytes(ps[0])|;
      if n < size {
        CutPacketIsError(p, n, policy);
      } else {
        var tail := Stream(ps[1..])[..n - size];
        SendableMeans(p);
        PacketArrives(p, tail, policy);
        PrefixReadsPrefix(ps[1..], n - size, policy.For(|p.payload|));
        var more := ReadAll(tail, policy.For(|p.payload|));
        assert [p] + more.packets <= ps;
        assert ([p] + more.packets)[1..] == more.packets;
      }
    }
  }

  lemma NothingToRead(policy: Policy)
    ensures ReadPacket([], policy) == Error
  {
  }

  lemma SendableMeans(p: Packet)
    requires Sendable(p)
    ensures WellFormed(p.addr) && !p.addr.NoAddr? && |p.payload| < 0x1_0000_0000 && |PacketBytes(p)| > 0
    ensures p.addr.V6? ==> p == p.(addr := V6(p.addr.ip, []))
  {
  }

  /** The reading loop crashes exactly when some packet does not fit. */
  lemma {:induction false} CrashesExactlyWhenTooLong(ps: seq<Packet>, policy: Policy)
    requires AllSendable(ps)
    ensures ReadAll(Stream(ps), policy).end == Crashed <==> !AllFit(ps, policy)
    decreases |ps|
  {
    hide ReadPacket, PacketBytes, Sendable;
    if ps == [] {
      NothingToRead(policy);
    } else {
      var p, tail := ps[0], Stream(ps[1..]);
      SendableMeans(p);
      var policy' := policy.For(|p.payload|);
      if |p.payload| <= policy'.size {
        PacketArrives(p, tail, policy);
        CrashesExactlyWhenTooLong(ps[1..], policy');
      } else {
        TooLongPanics(p, tail, policy);
      }
    }
  }

  // ---------- From the socket into the stream ----------

  /**
   The receive loop: a datagram that fills the buffer may have been cut off, so it is dropped
   and the buffer doubled; every other datagram is written whole.
   */
  function Forwarded(datagrams: seq<Packet>, buffer: nat): seq<Packet>
    decreases |datagrams|
  {
    if datagrams == [] then []
    else if |datagrams[0].payload| >= buffer then Forwarded(datagrams[1..], 2 * buffer)
    else [datagrams[0]] + Forwarded(datagrams[1..], buffer)
  }

  function Drops(datagrams: seq<Packet>, buffer: nat): nat
    decreases |datagrams|
  {
    if datagrams == [] then 0
    else if |datagrams[0].payload| >= buffer then 1 + Drops(datagrams[1..], 2 * buffer)
    else Drops(datagrams[1..], buffer)
  }

  function Doubled(buffer: nat, times: nat): nat
    decreases times
  {
    if times == 0 then buffer else Doubled(2 * buffer, times - 1)
  }

  /**
   Each datagram in turn: it is forwarded unchanged, right behind those forwarded before it, if it
   is shorter than the buffer, which has doubled once for every one dropped before; otherwise it is
   dropped.
   */
  lemma {:induction false} ForwardedExactly(datagrams: seq<Packet>, buffer: nat, i: nat)
    requires i < |datagrams|
    ensures var dropped, after := Drops(datagrams[..i], buffer), Drops(datagrams[..i + 1], buffer);
      && dropped <= i
      && if |datagrams[i].payload| < Doubled(buffer, dropped) then
           && after == dropped
           && i - dropped < |Forwarded(datagrams, buffer)| && Forwarded(datagrams, buffer)[i - dropped] == datagrams[i]
         else after == dropped + 1
    decreases i
  {
    var later := datagrams[1..];
    var next := if |datagrams[0].payload| >= buffer then 2 * buffer else buffer;
    if i > 0 {
      ForwardedExactly(later, next, i - 1);
      assert datagrams[..i][0] == datagrams[0] && datagrams[..i][1..] == later[..i - 1];
      assert datagrams[..i + 1][1..] == later[..i];
    } else {
      assert datagrams[..0] == [] && datagrams[..1][1..] == [];
    }
  }

  /** A buffer that has doubled past the longest datagram drops nothing more. */
  lemma {:induction false} DropsBounded(datagrams: seq<Packet>, buffer: nat, times: nat)
    requires forall i :: 0 <= i < |datagrams| ==> |datagrams[i].payload| < Doubled(buffer, times)
    ensures Drops(datagrams, buffer) <= times
    decreases |datagrams|
  {
    if datagrams != [] {
      assert |datagrams[0].payload| < Doubled(buffer, times);
      if |datagrams[0].payload| >= buffer {
        DropsBounded(datagrams[1..], 2 * buffer, times - 1);
      } else {
        DropsBounded(datagrams[1..], buffer, times);
      }
    }
  }

  /** UDP datagrams are shorter than 64 KiB: a run of any length drops at most four of them. */
  lemma AtMostFourDrops(datagrams: seq<Packet>)
    requires forall i :: 0 <= i < |datagrams| ==> |datagrams[i].payload| < 0x1_0000
    ensures Drops(datagrams, 4096) <= 4
    ensures |Forwarded(datagrams, 4096)| >= |datagrams| - 4
  {
    assert Doubled(4096, 4) == 0x1_0000;
    DropsBounded(datagrams, 4096, 4);
    ForwardedCount(datagrams, 4096);
  }

  lemma {:induction false} ForwardedCount(datagrams: seq<Packet>, buffer: nat)
    ensures |Forwarded(datagrams, buffer)| + Drops(datagrams, buffer) == |datagrams|
    decreases |datagrams|
  {
    if datagrams != [] {
      var next := if |datagrams[0].payload| >= buffer then 2 * buffer else buffer;
      ForwardedCount(datagrams[1..], next);
    }
  }

  lemma {:induction false} ForwardedSendable(datagrams: seq<Packet>, buffer: nat)
    requires AllSendable(datagrams)
    ensures AllSendable(Forwarded(datagrams, buffer))
    decreases |datagrams|
  {
    if datagrams != [] {
      var next := if |datagrams[0].payload| >= buffer then 2 * buffer else buffer;
      ForwardedSendable(datagrams[1..], next);
    }
  }

  lemma {:induction false} ShortFits(ps: seq<Packet>, size: nat)
    requires forall i :: 0 <= i < |ps| ==> |ps[i].payload| <= size
    ensures AllFit(ps, Fixed(size))
    decreases |ps|
  {
    if ps != [] {
      assert |ps[0].payload| <= size;
      ShortFits(ps[1..], size);
    }
  }

  lemma {:induction false} ForwardedShort(datagrams: seq<Packet>, buffer: nat, size: nat)
    requires forall i :: 0 <= i < |datagrams| ==> |datagrams[i].payload| <= size
    ensures forall i :: 0 <= i < |Forwarded(datagrams, buffer)| ==> |Forwarded(datagrams, buffer)[i].payload| <= size
    decreases |datagrams|
  {
    if datagrams != [] {
      var next := if |datagrams[0].payload| >= buffer then 2 * buffer else buffer;
      ForwardedShort(datagrams[1..], next, size);
    }
  }

  /**
   From socket to client: with a slice large enough for the datagrams, whatever part of the stream
   has arrived yields the forwarded datagrams from the first on, whole and in order.
   */
  lemma ClientReadsForwarded(datagrams: seq<Packet>, n: nat, size: nat)
    requires AllSendable(datagrams) && forall i :: 0 <= i < |datagrams| ==> |datagrams[i].payload| <= size
    requires n <= |Stream(Forwarded(datagrams, 4096))|
    ensures var r := ReadAll(Stream(Forwarded(datagrams, 4096))[..n], Fixed(size));
      r.end == Stopped && r.packets <= Forwarded(datagrams, 4096)
  {
    ForwardedSendable(datagrams, 4096);
    ForwardedShort(datagrams, 4096, size);
    ShortFits(Forwarded(datagrams, 4096), size);
    PrefixReadsPrefix(Forwarded(datagrams, 4096), n, Fixed(size));
  }

  // ---------- The code ----------

  lemma {:induction false} StreamSnoc(ps: seq<Packet>, p: Packet)
    ensures Stream(ps + [p]) == Stream(ps) + PacketBytes(p)
    decreases |ps|
  {
    hide PacketBytes;
    if ps == [] {
      assert ps + [p] == [p] && [p][1..] == [];
      assert Stream([]) == [];
    } else {
      assert (ps + [p])[0] == ps[0] && (ps + [p])[1..] == ps[1..] + [p];
      StreamSnoc(ps[1..], p);
    }
  }

  /** One end of the proxied connection: the bytes it has still to read and those it has written. */
  class UDPConn {
    var reader: bytes
    var writer: bytes
    var writeHeader: Header
    var policy: Policy

    constructor (reader: bytes, policy: Policy)
      ensures this.reader == reader && writer == [] && this.policy == policy && writeHeader == Header(0, 0, 0, 0, 0)
    {
      this.reader, writer, this.policy, writeHeader := reader, [], policy, Header(0, 0, 0, 0, 0);
    }

    method SetAddr(addr: Addr, port: Port) returns (ip: bytes)
      modifies this`writeHeader
      ensures writeHeader == WithAddr(old(writeHeader), addr, port) && ip == AsSlice(addr)
    {
      if addr.V6? {
        writeHeader := writeHeader.(addrType := ADDR_TYPE_IPV6, port := port, addrLen := 16);
      } else {
        writeHeader := writeHeader.(addrType := ADDR_TYPE_IPV4, port := port, addrLen := 4);
      }
      ip := AsSlice(addr);
      writeHeader := writeHeader.(addrLen := |ip| % 256);
    }

    /** The header is reused from packet to packet; what it held before does not show. */
    method WriteTo(p: Packet)
      requires writeHeader.version == 0
      modifies this`writer, this`writeHeader
      ensures writer == old(writer) + PacketBytes(p) && writeHeader == HeaderFor(p)
    {
      writeHeader := writeHeader.(length := |p.payload| % 0x1_0000_0000);
      var ip := SetAddr(p.addr, p.port);
      assert writeHeader == HeaderFor(p);
      writer := writer + HeaderBytes(writeHeader);
      writer := writer + ip;
      writer := writer + p.payload;
    }

    method ReadFrom() returns (r: Outcome<Packet>)
      modifies this`reader, this`policy
      ensures match ReadPacket(old(reader), old(policy))
              case Got(p, rest, policy') => r == Ok(p) && reader == rest && policy == policy'
              case Error => r == Err
              case Panics => r == Panic
    {
      if |reader| < HEADER_SIZE {
        return Err;
      }
      var addrType, addrLen: nat := reader[1], reader[2];
      var port, length := PortOf(reader[3..5]), FromBigEndian(reader[5..9]);
      if addrType != ADDR_TYPE_IPV4 && addrType != ADDR_TYPE_IPV6 {
        return Err;
      }
      if |reader| < HEADER_SIZE + addrLen {
        return Err;
      }
      var addr := AddrFromSlice(reader[HEADER_SIZE..HEADER_SIZE + addrLen]);
      if addr.None? {
        return Err;
      }
      reader := reader[HEADER_SIZE + addrLen..];
      policy := policy.For(length);
      if length > policy.size {
        return Panic;
      }
      if length > |reader| {
        return Err;
      }
      r := Ok(Packet(addr.value, port, reader[..length]));
      reader := reader[length..];
    }

    /** The server's send loop: every packet read goes out on the socket, until a write after the first `writes` fails. */
    method SendLoop(writes: nat) returns (sent: seq<Packet>, end: End)
      modifies this
      ensures var whole := ReadAll(old(reader), old(policy));
        if |whole.packets| <= writes then Reading(sent, end) == whole
        else sent == whole.packets[..writes] && end == Stopped
    {
      hide ReadPacket;
      sent := [];
      ghost var whole := ReadAll(reader, policy);
      while true
        invariant |sent| <= writes
        invariant whole.packets == sent + ReadAll(reader, policy).packets
        invariant whole.end == ReadAll(reader, policy).end
        decreases |reader|
      {
        ghost var rest := ReadAll(reader, policy);
        var r := ReadFrom();
        if !r.Ok? {
          assert sent + [] == sent;
          return sent, if r.Err? then Stopped else Crashed;
        }
        assert sent + ([r.value] + ReadAll(reader, policy).packets) == sent + [r.value] + ReadAll(reader, policy).packets;
        if |sent| == writes {
          return sent, Stopped;
        }
        sent := sent + [r.value];
      }
    }

    /** The server's receive loop over the datagrams that arrive. */
    method ReceiveLoop(datagrams: seq<Packet>)
      requires writeHeader.version == 0
      modifies this
      ensures writer == old(writer) + Stream(Forwarded(datagrams, 4096))
    {
      hide PacketBytes, HeaderFor, Forwarded, Stream;
      NoneForwarded();
      var readBuf: nat := 4096;
      ghost var done: seq<Packet> := [];
      for i := 0 to |datagrams|
        invariant writeHeader.version == 0
        invariant writer == old(writer) + Stream(done)
        invariant Forwarded(datagrams, 4096) == done + Forwarded(datagrams[i..], readBuf)
      {
        var d := datagrams[i];
        assert datagrams[i..][0] == d && datagrams[i..][1..] == datagrams[i + 1..];
        ForwardedStep(datagrams[i..], readBuf);
        // The socket gives at most as many bytes as the buffer holds.
        var n := if |d.payload| < readBuf then |d.payload| else readBuf;
        if n == readBuf {
          readBuf := 2 * readBuf;
        } else {
          WriteTo(d);
          FreshVersion(d);
          StreamSnoc(done, d);
          assert done + ([d] + Forwarded(datagrams[i + 1..], readBuf)) == done + [d] + Forwarded(datagrams[i + 1..], readBuf);
          assert old(writer) + Stream(done) + PacketBytes(d) == old(writer) + (Stream(done) + PacketBytes(d));
          done := done + [d];
        }
      }
      assert done + [] == done;
    }
  }

  lemma NoneForwarded()
    ensures Stream([]) == [] && forall buffer :: Forwarded([], buffer) == []
  {
  }

  lemma ForwardedStep(datagrams: seq<Packet>, buffer: nat)
    requires datagrams != []
    ensures Forwarded(datagrams, buffer) ==
      if |datagrams[0].payload| >= buffer then Forwarded(datagrams[1..], 2 * buffer)
      else [datagrams[0]] + Forwarded(datagrams[1..], buffer)
  {
  }

  lemma FreshVersion(p: Packet)
    ensures HeaderFor(p).version == 0
  {
  }
}
