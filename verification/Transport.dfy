/** Transport data messages: header layout, sealing and in-place opening. */
module TransportData {
  import opened Wrappers
  import opened Crypto
  import opened Replay

  type Payload = seq<Octet>

  const DATA_TYPE: byte := 4
  const PAYLOAD_OFFSET: nat := 16
  const OVERHEAD: nat := PAYLOAD_OFFSET + AEAD_TAG_SIZE
  const REKEY_AFTER_MESSAGES: nat := 0x1000_0000_0000_0000
  const INDEX_LIMIT: nat := 0x1_0000_0000
  const COUNTER_LIMIT: nat := 0x1_0000_0000_0000_0000

  datatype TransportError = InvalidPacket | BufferTooSmall(required: nat) | CounterExhausted

  function PacketLen(payloadSize: nat): nat {
    OVERHEAD + payloadSize
  }

  const HEADER_TYPE: seq<byte> := [DATA_TYPE, 0, 0, 0]

  /** The sixteen header octets: type and reserved, receiver index, counter. */
  function Header(receiver: nat, counter: nat): (h: seq<Octet>)
    ensures |h| == PAYLOAD_OFFSET
  {
    Raws(HEADER_TYPE + LittleEndian(receiver, 4) + LittleEndian(counter, 8))
  }

  function DataPacket(receiver: nat, counter: nat, key: Term, payload: Payload): (p: seq<Octet>)
    ensures |p| == PacketLen(|payload|)
  {
    Header(receiver, counter) + Seal(key, counter, EMPTY, payload)
  }

  /** A little-endian number in a header field. */
  function ReadNumber(field: seq<Octet>): Option<nat> {
    if forall i | 0 <= i < |field| :: field[i].Raw?
    then Some(FromLittleEndian(seq(|field|, i requires 0 <= i < |field| && field[i].Raw? => field[i].value)))
    else None
  }

  lemma ReadNumberOfRaws(bytes: seq<byte>)
    ensures ReadNumber(Raws(bytes)) == Some(FromLittleEndian(bytes))
  {
    var field := Raws(bytes);
    assert seq(|field|, i requires 0 <= i < |field| && field[i].Raw? => field[i].value) == bytes;
  }

  /** What a session with this index and receive key makes of a packet: the counter and the plaintext. */
  function Received(ourIndex: nat, key: Term, packet: seq<Octet>): Option<(nat, Payload)> {
    if |packet| < PacketLen(0) || packet[..4] != Raws(HEADER_TYPE) then None
    else if ReadNumber(packet[4..8]) != Some(ourIndex) then None
    else
      var counter := ReadNumber(packet[8..16]);
      if counter.None? then None
      else
        var plain := Open(key, counter.value, EMPTY, packet[PAYLOAD_OFFSET..]);
        if plain.None? then None else Some((counter.value, plain.value))
  }

  lemma Limits()
    ensures Power256(4) == INDEX_LIMIT && Power256(8) == COUNTER_LIMIT
  {
    assert Power256(4) == INDEX_LIMIT;
    assert Power256(8) == Power256(4) * Power256(4) by {
      assert Power256(5) == 256 * Power256(4);
      assert Power256(6) == 256 * Power256(5);
      assert Power256(7) == 256 * Power256(6);
      assert Power256(8) == 256 * Power256(7);
    }
  }

  lemma HeaderFields(receiver: nat, counter: nat, body: seq<Octet>)
    requires receiver < INDEX_LIMIT && counter < COUNTER_LIMIT
    ensures var p := Header(receiver, counter) + body;
            && p[..4] == Raws(HEADER_TYPE)
            && ReadNumber(p[4..8]) == Some(receiver)
            && ReadNumber(p[8..16]) == Some(counter)
            && p[PAYLOAD_OFFSET..] == body
  {
    var p := Header(receiver, counter) + body;
    Limits();
    LittleEndianRoundTrip(receiver, 4);
    LittleEndianRoundTrip(counter, 8);
    ReadNumberOfRaws(LittleEndian(receiver, 4));
    ReadNumberOfRaws(LittleEndian(counter, 8));
    assert p[4..8] == Raws(LittleEndian(receiver, 4));
    assert p[8..16] == Raws(LittleEndian(counter, 8));
  }

  /** A sent packet opens only under the receiver index and key it was sealed
      for, and then yields its counter and payload. */
  lemma ReceivedOfSent(receiver: nat, counter: nat, key: Term, payload: Payload, ourIndex: nat, recvKey: Term)
    requires receiver < INDEX_LIMIT && counter < COUNTER_LIMIT
    ensures Received(ourIndex, recvKey, DataPacket(receiver, counter, key, payload)) ==
            if receiver == ourIndex && key == recvKey then Some((counter, payload)) else None
  {
    HeaderFields(receiver, counter, Seal(key, counter, EMPTY, payload));
    OpenOfSeal(recvKey, counter, EMPTY, key, counter, EMPTY, payload);
  }

  lemma ReadNumberInverse(field: seq<Octet>)
    requires ReadNumber(field).Some?
    ensures var n := ReadNumber(field).value;
            n < Power256(|field|) && field == Raws(LittleEndian(n, |field|))
  {
    var bytes := seq(|field|, i requires 0 <= i < |field| && field[i].Raw? => field[i].value);
    assert field == Raws(bytes);
    LittleEndianInverse(bytes);
  }

  /** And nothing else opens: whatever is received was sealed for this index and key. */
  lemma ReceivedWasSent(ourIndex: nat, key: Term, packet: seq<Octet>)
    requires Received(ourIndex, key, packet).Some?
    ensures var (counter, payload) := Received(ourIndex, key, packet).value;
            ourIndex < INDEX_LIMIT && counter < COUNTER_LIMIT && packet == DataPacket(ourIndex, counter, key, payload)
  {
    var (counter, payload) := Received(ourIndex, key, packet).value;
    Limits();
    ReadNumberInverse(packet[4..8]);
    ReadNumberInverse(packet[8..16]);
    assert packet == packet[..4] + packet[4..8] + packet[8..16] + packet[16..];
    assert Header(ourIndex, counter) == Raws(HEADER_TYPE) + Raws(LittleEndian(ourIndex, 4)) + Raws(LittleEndian(counter, 8));
  }

  /** The keys and send counter of one established session. */
  class Transport {
    const ourIndex: nat
    const peerIndex: nat
    const recvKey: Term
    const sendKey: Term
    var sendCounter: nat

    constructor (ourIndex: nat, peerIndex: nat, recvKey: Term, sendKey: Term)
      ensures this.ourIndex == ourIndex && this.peerIndex == peerIndex
      ensures this.recvKey == recvKey && this.sendKey == sendKey && sendCounter == 0
    {
      this.ourIndex, this.peerIndex := ourIndex, peerIndex;
      this.recvKey, this.sendKey := recvKey, sendKey;
      sendCounter := 0;
    }

    /** Writes a data message into the front of the buffer. The buffer is
        checked before the counter, and a failure consumes no counter. */
    method Send(payload: Payload, buf: array<Octet>) returns (r: Result<nat, TransportError>)
      modifies this, buf
      ensures r == if buf.Length < PacketLen(|payload|) then Err(BufferTooSmall(PacketLen(|payload|)))
                   else if old(sendCounter) >= REJECT_AFTER_MESSAGES then Err(CounterExhausted)
                   else Ok(PacketLen(|payload|))
      ensures sendCounter == old(sendCounter) + if r.Ok? then 1 else 0
      ensures r.Ok? ==> buf[..] == DataPacket(peerIndex, old(sendCounter), sendKey, payload) + old(buf[PacketLen(|payload|)..])
      ensures r.Err? ==> buf[..] == old(buf[..])
    {
      var len := PacketLen(|payload|);
      if buf.Length < len {
        return Err(BufferTooSmall(len));
      }
      if sendCounter >= REJECT_AFTER_MESSAGES {
        return Err(CounterExhausted);
      }
      var counter := sendCounter;
      sendCounter := sendCounter + 1;
      WriteHeader(buf, peerIndex, counter);
      Write(buf, PAYLOAD_OFFSET, payload);
      ghost var plainAt := buf[..];
      SealWithin(sendKey, counter, EMPTY, buf, PAYLOAD_OFFSET, len);
      assert plainAt[PAYLOAD_OFFSET..len - AEAD_TAG_SIZE] == payload;
      assert plainAt[..PAYLOAD_OFFSET] == Header(peerIndex, counter);
      assert plainAt[len..] == old(buf[len..]);
      return Ok(len);
    }

    method Receive(packet: array<Octet>) returns (r: Result<(nat, nat), TransportError>)
      modifies packet
      ensures var spec := old(Received(ourIndex, recvKey, packet[..]));
              && (spec.None? ==> r == Err(InvalidPacket) && packet[..] == old(packet[..]))
              && (spec.Some? ==>
                    && r == Ok((spec.value.0, |spec.value.1|))
                    && |spec.value.1| <= packet.Length
                    && packet[..|spec.value.1|] == spec.value.1)
    {
      if packet.Length < PacketLen(0) || packet[..4] != Raws(HEADER_TYPE) {
        return Err(InvalidPacket);
      }
      if ReadNumber(packet[4..8]) != Some(ourIndex) {
        return Err(InvalidPacket);
      }
      var counter := ReadNumber(packet[8..16]);
      if counter.None? {
        return Err(InvalidPacket);
      }
      assert packet[..][PAYLOAD_OFFSET..] == packet[PAYLOAD_OFFSET..];
      assert packet[..][..4] == packet[..4] && packet[..][4..8] == packet[4..8] && packet[..][8..16] == packet[8..16];
      var ok := OpenWithin(recvKey, counter.value, EMPTY, packet, PAYLOAD_OFFSET);
      if !ok {
        return Err(InvalidPacket);
      }
      return Ok((counter.value, packet.Length - PAYLOAD_OFFSET - AEAD_TAG_SIZE));
    }
  }

  method WriteHeader(buf: array<Octet>, receiver: nat, counter: nat)
    requires buf.Length >= PAYLOAD_OFFSET
    modifies buf
    ensures buf[..] == Header(receiver, counter) + old(buf[PAYLOAD_OFFSET..])
  {
    Write(buf, 0, Raws(HEADER_TYPE));
    Write(buf, 4, Raws(LittleEndian(receiver, 4)));
    Write(buf, 8, Raws(LittleEndian(counter, 8)));
  }

  /** Encrypts in place the plaintext between `start` and the last sixteen octets before `end`. */
  method SealWithin(key: Term, nonce: nat, ad: Term, buf: array<Octet>, start: nat, end: nat)
    requires start + AEAD_TAG_SIZE <= end <= buf.Length
    modifies buf
    ensures buf[..] == old(buf[..start]) + old(Seal(key, nonce, ad, buf[start..end - AEAD_TAG_SIZE])) + old(buf[end..])
  {
    Write(buf, start, Seal(key, nonce, ad, buf[start..end - AEAD_TAG_SIZE]));
  }
}
