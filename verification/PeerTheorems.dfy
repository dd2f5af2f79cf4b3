/** What one peer machine accepts and refuses, told by its slots, its sessions'
    ages and the octets of the packet. */
module PeerTheorems {
  import opened Wrappers
  import opened Crypto
  import opened TransportData
  import opened PeerSpec
  import opened ActorRuns
  import H = Handshake

  /** The session was established less than three minutes ago. */
  predicate Young(s: SessionState, now: nat) {
    now < s.established + 180_000_000_000  // nanoseconds
  }

  /** The slot holds a session with this index, and no slot looked at before it does. */
  predicate Holder(m: PeerState, slot: Slot, index: nat) {
    && m.At(slot).Some? && m.At(slot).value.keys.ourIndex == index
    && (slot != Next ==> m.next.None? || m.next.value.keys.ourIndex != index)
    && (slot == Previous ==> m.current.None? || m.current.value.keys.ourIndex != index)
  }

  /** The session after a packet with this counter was accepted. */
  function Heard(s: SessionState, counter: nat): SessionState {
    s.(window := s.window.After(counter))
  }

  /** The machine after the session in a slot accepted a packet: an unconfirmed
      session becomes the one in use, and the oldest one makes room. */
  function Opened(m: PeerState, slot: Slot, counter: nat, source: Address): PeerState
    requires m.At(slot).Some?
  {
    var s := Heard(m.At(slot).value, counter);
    var at := m.(endpoint := Some(source));
    match slot
    case Next => at.(next := None, current := Some(s), previous := m.current)
    case Current => at.(current := Some(s))
    case Previous => at.(previous := Some(s))
  }

  /** The answer of `decrypt` to a packet sealed under any index, key and counter. */
  lemma DecryptExactly(m: PeerState, now: nat, receiver: nat, counter: nat, key: Term, payload: Payload, source: Address)
    requires receiver < INDEX_LIMIT && counter < COUNTER_LIMIT
    ensures var r := m.Decrypt(now, receiver, DataPacket(receiver, counter, key, payload), source);
            && ((forall slot :: !Holder(m, slot, receiver)) ==> r == (m, Err(Unexpected)))
            && forall slot | Holder(m, slot, receiver) ::
                 var s := m.At(slot).value;
                 if !Young(s, now) then r == (m, Err(Expired))
                 else if s.keys.recvKey != key then r == (m, Err(Invalid))
                 else if !s.window.Admits(counter) then r == (m, Err(Replayed))
                 else r == (Opened(m, slot, counter, source),
                            Ok(Recv(payload, slot == Next,
                                    if slot == Next && m.previous.Some? then Some(m.previous.value.keys.ourIndex) else None)))
  {
    hide DataPacket, Received;
    forall slot | Holder(m, slot, receiver)
      ensures Received(m.At(slot).value.keys.ourIndex, m.At(slot).value.keys.recvKey, DataPacket(receiver, counter, key, payload))
              == if m.At(slot).value.keys.recvKey == key then Some((counter, payload)) else None
      ensures m.Find(receiver) == Some(slot)
    {
      var s := m.At(slot).value;
      ReceivedOfSent(receiver, counter, key, payload, s.keys.ourIndex, s.keys.recvKey);
    }
    if m.Find(receiver).Some? { assert Holder(m, m.Find(receiver).value, receiver); }
  }

  /** A packet for any of the three sessions is opened, the one before the last
      rotation included. */
  lemma OpensInEverySlot(m: PeerState, slot: Slot, now: nat, counter: nat, payload: Payload, source: Address)
    requires IndicesApart(m) && m.At(slot).Some? && m.At(slot).value.keys.ourIndex < INDEX_LIMIT
    requires Young(m.At(slot).value, now) && m.At(slot).value.window.Admits(counter)
    ensures var s := m.At(slot).value;
            var r := m.Decrypt(now, s.keys.ourIndex, DataPacket(s.keys.ourIndex, counter, s.keys.recvKey, payload), source).1;
            r.Ok? && r.value.payload == payload
  {
    hide DataPacket, PeerState.Decrypt;
    var s := m.At(slot).value;
    Limits();
    DecryptExactly(m, now, s.keys.ourIndex, counter, s.keys.recvKey, payload, source);
    assert Holder(m, slot, s.keys.ourIndex);
  }

  /** Octets that are no packet of the session at all. */
  lemma ForeignRefused(m: PeerState, now: nat, receiver: nat, octets: seq<Octet>, source: Address)
    requires forall slot, counter: nat, payload | Holder(m, slot, receiver) ::
               octets != DataPacket(receiver, counter, m.At(slot).value.keys.recvKey, payload)
    ensures m.Decrypt(now, receiver, octets, source).0 == m && m.Decrypt(now, receiver, octets, source).1.Err?
  {
    hide DataPacket, Received;
    var slot := m.Find(receiver);
    if slot.Some? {
      var s := m.At(slot.value).value;
      assert Holder(m, slot.value, receiver);
      if Received(receiver, s.keys.recvKey, octets).Some? { ReceivedWasSent(receiver, s.keys.recvKey, octets); }
    }
  }

  /** Packets on their way across a rekey: when a response is adopted, what the
      session in use would have opened is still opened, until that session is
      three minutes old or rotated out. */
  lemma RekeyLosesNothing(m: PeerState, secret: nat, at: nat, msg: H.RespMsg, from: Address, now: nat, counter: nat,
                          payload: Payload, source: Address)
    requires m.current.Some? && m.current.value.keys.ourIndex < INDEX_LIMIT
    requires m.HandshakeResponse(secret, at, msg, from).1.Ok?
    requires var m' := m.HandshakeResponse(secret, at, msg, from).0; IndicesApart(m')
    requires Young(m.current.value, now) && m.current.value.window.Admits(counter)
    ensures var s, m' := m.current.value, m.HandshakeResponse(secret, at, msg, from).0;
            var r := m'.Decrypt(now, s.keys.ourIndex, DataPacket(s.keys.ourIndex, counter, s.keys.recvKey, payload), source).1;
            r.Ok? && r.value.payload == payload
  {
    hide DataPacket, PeerState.Decrypt, H.ResponseReceived;
    var m' := m.HandshakeResponse(secret, at, msg, from).0;
    assert m'.At(Previous) == m.current;
    OpensInEverySlot(m', Previous, now, counter, payload, source);
  }

  /** When and what the machine seals. */
  lemma EncryptExactly(m: PeerState, now: nat, payload: Payload, outLen: nat)
    ensures var (m', packet) := m.Encrypt(now, payload, outLen);
            && (packet.Ok? <==>
                  && m.endpoint.Some? && m.current.Some? && Young(m.current.value, now)
                  && outLen >= |payload| + 32 && m.current.value.sendCounter < 0xFFFF_FFFF_FFFF_DFFF)
            && (packet.Ok? ==>
                  var s := m.current.value;
                  && m' == m.(current := Some(s.(sendCounter := s.sendCounter + 1)))
                  && packet.value == DataPacket(s.keys.peerIndex, s.sendCounter, s.keys.sendKey, payload))
            && (packet.Err? ==> m' == m)
  {
    hide DataPacket;
  }
}
