/** The packet pipeline: parse, pad, seal, open, parse and trim. */
module Pipeline {
  import opened Wrappers
  import opened Crypto
  import opened TransportData
  import opened PeerSpec
  import opened AllowedIps
  import R = Replay
  import H = Handshake

  const PADDING_MULTIPLE: nat := 16
  const MAX_IPV4_UDP_PAYLOAD_SIZE: nat := 65_507
  const MAX_PLAINTEXT_SIZE: nat := (MAX_IPV4_UDP_PAYLOAD_SIZE - OVERHEAD) / PADDING_MULTIPLE * PADDING_MULTIPLE

  datatype PacketInfo = PacketInfo(source: IpAddr, destination: IpAddr, len: nat)

  function Bits(b: byte): (s: seq<bool>)
    ensures |s| == 8
  {
    seq(8, i requires 0 <= i < 8 => (b / [128, 64, 32, 16, 8, 4, 2, 1][i]) % 2 == 1)
  }

  function AddressBits(octets: seq<byte>): (s: seq<bool>)
    ensures |s| == 8 * |octets|
  {
    if octets == [] then [] else Bits(octets[0]) + AddressBits(octets[1..])
  }

  /** Addresses and declared length of an IP packet; nothing for a packet that is not one. */
  function Parse(packet: seq<byte>): (r: Option<PacketInfo>)
    ensures r.Some? ==> 20 <= r.value.len <= |packet| && r.value.source.Valid() && r.value.destination.Valid()
  {
    if packet == [] then None
    else
      var version := packet[0] / 16;
      if version == 4 && |packet| >= 20 then
        var headerLen: int := (packet[0] as int % 16) * 4;
        var len: int := packet[2] as int * 256 + packet[3];
        if headerLen < 20 || len < headerLen || len > |packet| then None
        else Some(PacketInfo(V4(AddressBits(packet[12..16])), V4(AddressBits(packet[16..20])), len))
      else if version == 6 && |packet| >= 40 then
        var len: int := 40 + packet[4] as int * 256 + packet[5];
        if len > |packet| then None
        else Some(PacketInfo(V6(AddressBits(packet[8..24])), V6(AddressBits(packet[24..40])), len))
      else None
  }

  function Digit(bit: bool, weight: nat): nat {
    if bit then weight else 0
  }

  lemma OctetValue(s: seq<bool>)
    requires |s| == 8
    ensures Value(s) == Digit(s[0], 128) + Digit(s[1], 64) + Digit(s[2], 32) + Digit(s[3], 16)
                        + Digit(s[4], 8) + Digit(s[5], 4) + Digit(s[6], 2) + Digit(s[7], 1)
  {
    NibbleValue(s[..4]);
    NibbleValue(s[4..]);
    assert s == s[..4] + s[4..];
    ValueJoin(s[..4], s[4..]);
    assert Pow2(4) == 16;
  }

  lemma NibbleValue(s: seq<bool>)
    requires |s| == 4
    ensures Value(s) == Digit(s[0], 8) + Digit(s[1], 4) + Digit(s[2], 2) + Digit(s[3], 1)
  {
    assert s[1..][1..] == s[2..] && s[2..][1..] == s[3..] && s[3..][1..] == [];
    assert Value(s[3..]) == Digit(s[3], 1);
    assert Value(s[2..]) == Digit(s[2], 2) + Value(s[3..]);
    assert Value(s[1..]) == Digit(s[1], 4) + Value(s[2..]);
  }

  lemma Half(n: nat, weight: nat)
    ensures n * weight == n / 2 * (2 * weight) + Digit(n % 2 == 1, weight)
  {
    assert n == 2 * (n / 2) + n % 2;
    assert n % 2 == 0 || n % 2 == 1;
    assert (2 * (n / 2) + n % 2) * weight == 2 * (n / 2) * weight + n % 2 * weight;
  }

  lemma Halves(b: byte)
    ensures b / 4 == b / 2 / 2 && b / 8 == b / 4 / 2 && b / 16 == b / 8 / 2 && b / 32 == b / 16 / 2
    ensures b / 64 == b / 32 / 2 && b / 128 == b / 64 / 2 && b / 128 / 2 == 0
  {
  }

  lemma OctetDigits(b: byte)
    ensures b == Digit(b / 128 % 2 == 1, 128) + Digit(b / 64 % 2 == 1, 64) + Digit(b / 32 % 2 == 1, 32)
                 + Digit(b / 16 % 2 == 1, 16) + Digit(b / 8 % 2 == 1, 8) + Digit(b / 4 % 2 == 1, 4)
                 + Digit(b / 2 % 2 == 1, 2) + Digit(b % 2 == 1, 1)
  {
    hide Digit;
    Halves(b);
    Half(b, 1);
    Half(b / 2, 2);
    Half(b / 4, 4);
    Half(b / 8, 8);
    Half(b / 16, 16);
    Half(b / 32, 32);
    Half(b / 64, 64);
    Half(b / 128, 128);
  }

  /** The bits of an octet are its value. */
  lemma BitsValue(b: byte)
    ensures Value(Bits(b)) == b
  {
    var s := Bits(b);
    assert s[0] == (b / 128 % 2 == 1) && s[1] == (b / 64 % 2 == 1) && s[2] == (b / 32 % 2 == 1) && s[3] == (b / 16 % 2 == 1);
    assert s[4] == (b / 8 % 2 == 1) && s[5] == (b / 4 % 2 == 1) && s[6] == (b / 2 % 2 == 1) && s[7] == (b / 1 % 2 == 1);
    hide Bits, Value;
    OctetValue(s);
    OctetDigits(b);
  }

  /** An address as a number, most significant octet first. */
  function BigEndian(octets: seq<byte>): nat {
    if octets == [] then 0 else octets[0] * Pow2(8 * (|octets| - 1)) + BigEndian(octets[1..])
  }

  lemma {:induction false} AddressValue(octets: seq<byte>)
    ensures Value(AddressBits(octets)) == BigEndian(octets)
  {
    if octets != [] {
      AddressValue(octets[1..]);
      BitsValue(octets[0]);
      ValueJoin(Bits(octets[0]), AddressBits(octets[1..]));
    }
  }

  /** An IPv4 header without options: header length in words, total length,
      and everything that does not matter here. */
  function V4Header(words: nat, service: byte, len: nat, middle: seq<byte>, source: seq<byte>, destination: seq<byte>): seq<byte>
    requires 5 <= words < 16 && len < 65536
  {
    [64 + words, service, (len / 256), (len % 256)] + middle + source + destination
  }

  function V6Header(first: seq<byte>, payloadLen: nat, middle: seq<byte>, source: seq<byte>, destination: seq<byte>): seq<byte>
    requires payloadLen < 65536
  {
    first + [(payloadLen / 256), (payloadLen % 256)] + middle + source + destination
  }

  /** A packet that starts with a written IPv4 header, for every header length,
      parses to the addresses and the length written. */
  lemma ParsesV4(words: nat, service: byte, len: nat, middle: seq<byte>, source: seq<byte>, destination: seq<byte>, rest: seq<byte>)
    requires 5 <= words < 16 && len < 65536 && |middle| == 8 && |source| == 4 && |destination| == 4
    ensures var packet := V4Header(words, service, len, middle, source, destination) + rest;
            Parse(packet) == if words * 4 <= len <= |packet|
                             then Some(PacketInfo(V4(AddressBits(source)), V4(AddressBits(destination)), len)) else None
  {
    hide AddressBits;
    var packet := V4Header(words, service, len, middle, source, destination) + rest;
    assert packet[12..16] == source && packet[16..20] == destination;
  }

  /** The same for IPv6; the version is the upper half of the first octet. */
  lemma ParsesV6(first: seq<byte>, payloadLen: nat, middle: seq<byte>, source: seq<byte>, destination: seq<byte>, rest: seq<byte>)
    requires payloadLen < 65536 && |first| == 4 && 96 <= first[0] < 112
    requires |middle| == 2 && |source| == 16 && |destination| == 16
    ensures var packet := V6Header(first, payloadLen, middle, source, destination) + rest;
            Parse(packet) == if 40 + payloadLen <= |packet|
                             then Some(PacketInfo(V6(AddressBits(source)), V6(AddressBits(destination)), 40 + payloadLen)) else None
  {
    hide AddressBits;
    var packet := V6Header(first, payloadLen, middle, source, destination) + rest;
    assert packet[8..24] == source && packet[24..40] == destination;
  }

  /** And nothing else parses. */
  lemma ParsesOnlyHeaders(packet: seq<byte>)
    requires Parse(packet).Some?
    ensures || (exists words: nat, service, len: nat, middle, source, destination, rest ::
                  && 5 <= words < 16 && len < 65536 && |middle| == 8 && |source| == 4 && |destination| == 4
                  && packet == V4Header(words, service, len, middle, source, destination) + rest)
            || (exists first, payloadLen: nat, middle, source, destination, rest ::
                  && payloadLen < 65536 && |first| == 4 && 96 <= first[0] < 112
                  && |middle| == 2 && |source| == 16 && |destination| == 16
                  && packet == V6Header(first, payloadLen, middle, source, destination) + rest)
  {
    hide AddressBits;
    if packet[0] / 16 == 4 {
      var words: nat := packet[0] % 16;
      var len: nat := packet[2] as int * 256 + packet[3];
      assert packet == V4Header(words, packet[1], len, packet[4..12], packet[12..16], packet[16..20]) + packet[20..];
    } else {
      var len: nat := packet[4] as int * 256 + packet[5];
      assert packet == V6Header(packet[..4], len, packet[6..8], packet[8..24], packet[24..40]) + packet[40..];
    }
  }

  function NextMultiple(n: nat): (m: nat)
    ensures m % PADDING_MULTIPLE == 0 && n <= m < n + PADDING_MULTIPLE
  {
    (n + PADDING_MULTIPLE - 1) / PADDING_MULTIPLE * PADDING_MULTIPLE
  }

  /** Zero-pads to the transport multiple or the packet size limit, whichever is less. */
  method PadPacket(packet: seq<byte>, maxPacketSize: nat) returns (ok: bool, padded: seq<byte>)
    ensures ok <==> |packet| <= maxPacketSize
    ensures ok ==> packet <= padded && (forall i | |packet| <= i < |padded| :: padded[i] == 0)
    ensures ok ==> |padded| <= maxPacketSize && |padded| < |packet| + 16
    ensures ok ==> |padded| % 16 == 0 || |padded| == maxPacketSize
    ensures ok ==> padded == Padded(packet, maxPacketSize)
    ensures !ok ==> padded == packet
  {
    if |packet| > maxPacketSize {
      return false, packet;
    }
    var paddedLen := NextMultiple(|packet|);
    if maxPacketSize < paddedLen {
      paddedLen := maxPacketSize;
    }
    padded := packet;
    while |padded| < paddedLen
      invariant packet <= padded && |padded| <= paddedLen
      invariant forall i | |packet| <= i < |padded| :: padded[i] == 0
    {
      padded := padded + [0];
    }
    return true, padded;
  }

  function Padded(packet: seq<byte>, maxPacketSize: nat): (p: seq<byte>)
    requires |packet| <= maxPacketSize
    ensures packet <= p
  {
    var m := NextMultiple(|packet|);
    var len := if maxPacketSize < m then maxPacketSize else m;
    packet + seq(len - |packet|, _ => 0)
  }

  /** An outbound packet ready for sealing, with its destination. */
  function Prepare(packet: seq<byte>, maxPacketSize: nat): Option<(IpAddr, seq<byte>)> {
    var info := Parse(packet);
    if info.None? then None
    else if info.value.len > maxPacketSize then None
    else Some((info.value.destination, Padded(packet[..info.value.len], maxPacketSize)))
  }

  method PrepareOutbound(packet: seq<byte>, maxPacketSize: nat) returns (r: Option<(IpAddr, seq<byte>)>)
    ensures r == Prepare(packet, maxPacketSize)
  {
    var info := Parse(packet);
    if info.None? {
      return None;
    }
    var ok, padded := PadPacket(packet[..info.value.len], maxPacketSize);
    if !ok {
      return None;
    }
    return Some((info.value.destination, padded));
  }

  /** Parsing looks no further than the declared length, so trailing octets may be cut or zero-filled. */
  lemma ParsePrefix(packet: seq<byte>, other: seq<byte>)
    requires Parse(packet).Some? && packet[..Parse(packet).value.len] <= other
    ensures Parse(other) == Parse(packet)
  {
    var len := Parse(packet).value.len;
    var p := packet[..len];
    assert forall i | 0 <= i < len :: packet[i] == p[i] == other[i];
    assert packet[12..16] == other[12..16] && packet[16..20] == other[16..20];
    if packet[0] / 16 == 6 {
      assert packet[8..24] == other[8..24] && packet[24..40] == other[24..40];
    }
  }

  /** A session and its mirror carry any payload unchanged, if the counter is admitted. */
  lemma MirrorsCarry(a: SessionState, b: SessionState, payload: Payload, outLen: nat)
    requires H.Mirror(a.keys, b.keys) && a.keys.peerIndex < INDEX_LIMIT
    requires a.sendCounter < R.REJECT_AFTER_MESSAGES && b.window.Admits(a.sendCounter) && outLen >= PacketLen(|payload|)
    ensures var sent := a.Send(payload, outLen).1;
            && sent.Ok? && |sent.value| == PacketLen(|payload|)
            && b.Receive(sent.value).1 == Ok(payload)
  {
    hide DataPacket, Received;
    ReceivedOfSent(a.keys.peerIndex, a.sendCounter, a.keys.sendKey, payload, b.keys.ourIndex, b.keys.recvKey);
  }

  /** An inbound payload the device hands up: an IP packet whose source address
      routes back to the peer that delivered it. */
  ghost predicate Acceptable(owners: map<IpNet, PeerKey>, from: PeerKey, payload: seq<byte>)
    requires ValidNets(owners)
  {
    Parse(payload).Some? && Answers(owners, Parse(payload).value.source, Some(from))
  }

  /** Routes an outbound packet to the owner of its destination, padded for transport. */
  method SendPacket(table: Table<PeerKey>, packet: seq<byte>, maxPacketSize: nat) returns (r: Option<(PeerKey, seq<byte>)>)
    requires table.Valid()
    ensures ValidNets(table.owners)
    ensures var ready := Prepare(packet, maxPacketSize);
            && (r.Some? ==> ready.Some? && r.value.1 == ready.value.1
                            && ready.value.0.Valid() && Answers(table.owners, ready.value.0, Some(r.value.0)))
            && (r.None? ==> ready.None? || (ready.value.0.Valid() && Answers(table.owners, ready.value.0, None)))
  {
    ValidTable(table.entries, table.owners);
    var ready := PrepareOutbound(packet, maxPacketSize);
    if ready.None? {
      return None;
    }
    var owner := table.LongestMatch(ready.value.0);
    if owner.None? {
      return None;
    }
    return Some((owner.value, ready.value.1));
  }

  lemma ValidTable(entries: seq<(IpNet, PeerKey)>, m: map<IpNet, PeerKey>)
    requires Represents(entries, m)
    ensures ValidNets(m)
  {
  }

  /** The receive loop: drops packets until one is acceptable, and trims that one to its declared length. */
  method RecvPacket(table: Table<PeerKey>, packets: seq<(PeerKey, seq<byte>)>) returns (r: Option<seq<byte>>, used: nat)
    requires table.Valid()
    ensures used <= |packets| && ValidNets(table.owners)
    ensures r.Some? ==>
              && used > 0
              && var (from, payload) := packets[used - 1];
                 Acceptable(table.owners, from, payload) && r.value == payload[..Parse(payload).value.len]
    ensures forall i | 0 <= i < (if r.Some? then used - 1 else |packets|) ::
              !Acceptable(table.owners, packets[i].0, packets[i].1)
  {
    ValidTable(table.entries, table.owners);
    used := 0;
    while used < |packets|
      invariant used <= |packets|
      invariant forall i | 0 <= i < used :: !Acceptable(table.owners, packets[i].0, packets[i].1)
    {
      var (from, payload) := packets[used];
      used := used + 1;
      var info := Parse(payload);
      if info.None? {
        continue;
      }
      var owner := table.LongestMatch(info.value.source);
      if owner != Some(from) {
        if Answers(table.owners, info.value.source, Some(from)) {
          AnswerIsUnique(table.owners, info.value.source, owner, Some(from));
        }
        continue;
      }
      return Some(payload[..info.value.len]), used;
    }
    return None, used;
  }

  /** The identity theorem. Whatever is accepted for sending is padded to the
      multiple or the limit, fits a UDP datagram once sealed, is not mistaken for
      a keepalive, and comes out of the mirrored session and the receiving device
      as exactly the declared length of what went in, with the same addresses;
      the receiver takes it exactly when its source routes back to the sender. */
  lemma PipelineIsIdentity(packet: seq<byte>, maxPacketSize: nat, a: SessionState, b: SessionState, outLen: nat,
                           owners: map<IpNet, PeerKey>, from: PeerKey)
    requires ValidNets(owners)
    requires maxPacketSize <= 65_472 && Prepare(packet, maxPacketSize).Some?
    requires H.Mirror(a.keys, b.keys) && a.keys.peerIndex < INDEX_LIMIT
    requires a.sendCounter < R.REJECT_AFTER_MESSAGES && b.window.Admits(a.sendCounter)
    requires outLen >= PacketLen(|Prepare(packet, maxPacketSize).value.1|)
    ensures var (destination, padded) := Prepare(packet, maxPacketSize).value;
            var info := Parse(packet).value;
            var wire := a.Send(Raws(padded), outLen).1;
            && (|padded| % 16 == 0 || |padded| == maxPacketSize)
            && wire.Ok? && |wire.value| <= 65_507
            && padded != []
            && b.Receive(wire.value).1 == Ok(Raws(padded))
            && Parse(padded) == Some(info) && info.destination == destination
            && padded[..info.len] == packet[..info.len]
            && (Acceptable(owners, from, padded) <==> Answers(owners, info.source, Some(from)))
  {
    hide SessionState.Send, SessionState.Receive;
    var padded := Prepare(packet, maxPacketSize).value.1;
    var info := Parse(packet).value;
    assert packet[..info.len] <= padded;
    ParsePrefix(packet, padded);
    assert padded[..info.len] == packet[..info.len];
    MirrorsCarry(a, b, Raws(padded), outLen);
  }

  /** A packet that declares exactly its own length. */
  predicate SelfContained(p: seq<byte>) {
    Parse(p).Some? && Parse(p).value.len == |p|
  }

  /** What is accepted for sending. A buffer is accepted exactly when some prefix
      of it is a self-contained IP packet within the limit; there is only one such
      prefix, and what is sent depends on that prefix alone. */
  lemma AcceptedExactly(packet: seq<byte>, maxPacketSize: nat)
    ensures Prepare(packet, maxPacketSize).Some? <==> exists p :: p <= packet && SelfContained(p) && |p| <= maxPacketSize
    ensures forall p | p <= packet && SelfContained(p) && |p| <= maxPacketSize ::
              Prepare(packet, maxPacketSize) == Prepare(p, maxPacketSize) && p == packet[..Parse(packet).value.len]
  {
    hide Parse, Padded;
    forall p | p <= packet && SelfContained(p) && |p| <= maxPacketSize
      ensures Prepare(packet, maxPacketSize) == Prepare(p, maxPacketSize) && p == packet[..Parse(packet).value.len]
      ensures Prepare(packet, maxPacketSize).Some?
    {
      assert p[..|p|] == p;
      ParsePrefix(p, packet);
      assert packet[..|p|] == p;
    }
    if Prepare(packet, maxPacketSize).Some? {
      var p := packet[..Parse(packet).value.len];
      ParsePrefix(packet, p);
      assert p <= packet && SelfContained(p) && |p| <= maxPacketSize;
    }
  }

  /** The largest packet limit is the largest multiple of the padding that fits
      a datagram once sealed. */
  lemma PlaintextLimit(n: nat)
    ensures MAX_PLAINTEXT_SIZE == 65_472
    ensures n % 16 == 0 && PacketLen(n) <= 65_507 ==> n <= MAX_PLAINTEXT_SIZE
  {
  }

  /** Preparing is idempotent: what was prepared once passes through unchanged. */
  lemma PreparedIsStable(packet: seq<byte>, maxPacketSize: nat)
    requires Prepare(packet, maxPacketSize).Some?
    ensures var ready := Prepare(packet, maxPacketSize).value;
            Prepare(ready.1, maxPacketSize) == Some(ready)
  {
    var len := Parse(packet).value.len;
    var padded := Prepare(packet, maxPacketSize).value.1;
    assert packet[..len] <= padded;
    ParsePrefix(packet, padded);
    assert padded[..len] == packet[..len];
  }
}
