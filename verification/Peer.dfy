/** The peer machine in place: sessions are objects that move between slots
    together with their counters and replay rings. Packet buffers are borrowed
    exclusively, so they are never part of a session. */
module PeerMachine {
  import opened Wrappers
  import opened Crypto
  import opened Replay
  import opened Timing
  import opened TransportData
  import opened PeerSpec
  import C = Cookies
  import H = Handshake
  import W = Wire

  class Session {
    const transport: Transport
    const established: nat
    const replay: ReplayFilter

    ghost function Repr(): set<object> {
      {this, transport, replay, replay.ring}
    }

    ghost predicate Valid()
      reads Repr()
    {
      replay.Valid()
    }

    ghost function View(): SessionState
      reads Repr()
    {
      SessionState(H.TransportKeys(transport.ourIndex, transport.peerIndex, transport.recvKey, transport.sendKey),
                   transport.sendCounter, established, replay.View())
    }

    constructor (keys: H.TransportKeys, now: nat)
      ensures Valid() && fresh(Repr())
      ensures View() == NewSession(keys, now)
    {
      transport := new Transport(keys.ourIndex, keys.peerIndex, keys.recvKey, keys.sendKey);
      established := now;
      replay := new ReplayFilter();
    }

    method Send(payload: Payload, out: array<Octet>) returns (r: Result<nat, PeerError>)
      requires Valid() && out !in Repr()
      modifies transport, out
      ensures Valid()
      ensures var (s, packet) := old(View()).Send(payload, out.Length);
              && View() == s
              && (packet.Err? ==> r == Err(packet.error))
              && (packet.Ok? ==> r == Ok(|packet.value|) && out[..] == packet.value + old(out[..])[|packet.value|..])
    {
      var sent := transport.Send(payload, out);
      match sent
      case Ok(len) => r := Ok(len);
      case Err(error) =>
        match error
        case CounterExhausted => r := Err(PeerError.CounterExhausted);
        case BufferTooSmall(required) => r := Err(PeerError.BufferTooSmall(required));
        case InvalidPacket => r := Err(Invalid);
    }

    method Receive(packet: array<Octet>) returns (r: Result<nat, PeerError>)
      requires Valid() && packet !in Repr()
      modifies replay, replay.ring, packet
      ensures Valid()
      ensures var (s, payload) := old(View()).Receive(old(packet[..]));
              && View() == s
              && (payload.Err? ==> r == Err(payload.error))
              && (payload.Ok? ==> r == Ok(|payload.value|) && |payload.value| <= packet.Length
                                  && packet[..|payload.value|] == payload.value)
    {
      var got := transport.Receive(packet);
      if got.Err? {
        return Err(Invalid);
      }
      var ok := replay.Validate(got.value.0);
      if !ok {
        return Err(Replayed);
      }
      return Ok(got.value.1);
    }
  }

  /** What `decrypt` reports; the plaintext itself is left at the front of the packet. */
  datatype RecvInfo = RecvInfo(payloadLen: nat, confirmed: bool, unmapped: Option<nat>)

  class Peer {
    const peerKey: Term
    const cookies: C.Generator
    var endpoint: Option<Address>
    var psk: Option<Term>
    var lastTimestamp: Option<nat>
    var pending: Option<PendingHandshake>
    var current: Option<Session>
    var next: Option<Session>
    var previous: Option<Session>

    static ghost function SlotRepr(s: Option<Session>): set<object> {
      if s.Some? then s.value.Repr() else {}
    }

    ghost function Repr(): set<object>
      reads this
    {
      SlotRepr(current) + SlotRepr(next) + SlotRepr(previous)
    }

    ghost predicate Valid()
      reads this, Repr()
    {
      && SlotRepr(current) !! SlotRepr(next) !! SlotRepr(previous)
      && this !in Repr() && cookies.publicKey == peerKey
      && (current.Some? ==> current.value.Valid())
      && (next.Some? ==> next.value.Valid())
      && (previous.Some? ==> previous.value.Valid())
    }

    static ghost function SlotView(s: Option<Session>): Option<SessionState>
      reads SlotRepr(s)
    {
      if s.Some? then Some(s.value.View()) else None
    }

    ghost function View(): PeerState
      reads this, Repr()
    {
      PeerState(peerKey, endpoint, psk, lastTimestamp, pending, SlotView(current), SlotView(next), SlotView(previous))
    }

    constructor (peerKey: Term)
      ensures Valid() && View() == NewPeer(peerKey) && fresh(cookies) && cookies.View() == C.NewGenerator(peerKey)
    {
      this.peerKey := peerKey;
      cookies := new C.Generator(peerKey);
      endpoint, psk, lastTimestamp, pending := None, None, None, None;
      current, next, previous := None, None, None;
    }

    method SetPresharedKey(psk: Option<Term>)
      requires Valid()
      modifies this`psk
      ensures Valid() && Repr() == old(Repr()) && View() == old(View()).(psk := psk)
    {
      this.psk := psk;
    }

    method SetEndpoint(address: Address)
      requires Valid()
      modifies this`endpoint
      ensures Valid() && Repr() == old(Repr()) && View() == old(View()).(endpoint := Some(address))
    {
      endpoint := Some(address);
    }

    /** Writes the initiation, with its MACs, into the front of the buffer. A
        low-order peer key is noticed when the clear fields are already written. */
    method Initiate(ourSecret: nat, v: HandshakeValues, out: array<Octet>) returns (r: Result<Option<nat>, PeerError>)
      requires Valid() && out !in Repr()
      modifies this`pending, cookies`lastSentMac1, out
      ensures Valid() && Repr() == old(Repr())
      ensures var (s, spec) := old(View()).Initiate(ourSecret, v, out.Length);
              && View() == s
              && (spec.Err? ==> r == Err(spec.error) && cookies.View() == old(cookies.View()))
              && (spec.Err? ==>
                    out[..] == if out.Length < H.INIT_MSG_LENGTH then old(out[..])
                               else W.InitPrefix(v.index, Point(v.ephemeralSecret)) + old(out[40..]))
              && (spec.Ok? ==>
                    && r == Ok(spec.value.0) && out.Length >= H.INIT_MSG_LENGTH
                    && var (g, wire) := W.InitOctets(old(cookies.View()), v.timestamp, spec.value.1, old(out[116..148]));
                       cookies.View() == g && out[..] == wire + old(out[148..]))
    {
      hide H.Initiate, W.InitBody, W.InitPrefix, W.InitOctets;
      if out.Length < H.INIT_MSG_LENGTH {
        return Err(PeerError.BufferTooSmall(H.INIT_MSG_LENGTH));
      }
      ghost var scratch, tail := out[116..148], out[148..];
      W.WriteInitPrefix(out, v.index, Point(v.ephemeralSecret));
      assert out[116..148] == scratch && out[148..] == tail;
      var init := H.Initiate(ourSecret, peerKey, v.index, v.ephemeralSecret, v.timestamp);
      if init.None? {
        return Err(HandshakeFailed);
      }
      H.InitiationFields(ourSecret, peerKey, v.index, v.ephemeralSecret, v.timestamp);
      FinishInit(v.timestamp, init.value.1, out);
      var replaced := if pending.Some? then Some(pending.value.ourIndex) else None;
      pending := Some(PendingHandshake(init.value.0, v.index));
      return Ok(replaced);
    }

    method FinishInit(now: nat, m: H.InitMsg, out: array<Octet>)
      requires out.Length >= H.INIT_MSG_LENGTH && out[..40] == W.InitPrefix(m.sender, m.ephemeral)
      modifies cookies`lastSentMac1, out
      ensures var (g, wire) := W.InitOctets(old(cookies.View()), now, m, old(out[116..148]));
              cookies.View() == g && out[..] == wire + old(out[148..])
    {
      hide C.GeneratorState.AddMacs;
      ghost var scratch, tail := out[116..148], out[148..];
      W.WriteInitSealed(out, m);
      assert out[..148] == W.InitBody(m) + scratch && out[148..] == tail;
      assert out[..148][..4] == C.TypeOctets(1);
      var done := cookies.AddMacs(now, out, H.INIT_MSG_LENGTH);
      assert out[..] == out[..148] + out[148..];
    }

    method AbandonHandshake() returns (retired: Option<nat>)
      requires Valid()
      modifies this`pending
      ensures Valid() && Repr() == old(Repr())
      ensures (View(), retired) == old(View()).Abandon()
    {
      retired := if pending.Some? then Some(pending.value.ourIndex) else None;
      pending := None;
    }

    /** Writes the response, with its MACs, into the front of the buffer. */
    method Respond(now: nat, received: H.InitReceived, v: HandshakeValues, source: Address, out: array<Octet>)
      returns (r: Result<Option<nat>, PeerError>)
      requires Valid() && out !in Repr()
      modifies this, cookies`lastSentMac1, out
      ensures Valid() && fresh(Repr() - old(Repr()))
      ensures var (s, spec) := old(View()).Respond(now, received, v, source, out.Length);
              && View() == s
              && (spec.Err? ==> r == Err(spec.error) && cookies.View() == old(cookies.View()) && out[..] == old(out[..]))
              && (spec.Ok? ==>
                    && r == Ok(spec.value.0) && out.Length >= H.RESP_MSG_LENGTH
                    && var (g, wire) := W.RespOctets(old(cookies.View()), v.timestamp, spec.value.1, old(out[60..92]));
                       cookies.View() == g && out[..] == wire + old(out[92..]))
    {
      hide H.Respond, H.FinishResponder, W.RespBody, W.RespOctets;
      if lastTimestamp.Some? && received.timestamp <= lastTimestamp.value {
        return Err(StaleTimestamp);
      }
      if out.Length < H.RESP_MSG_LENGTH {
        return Err(PeerError.BufferTooSmall(H.RESP_MSG_LENGTH));
      }
      var (msg, established) := H.Respond(received, v.index, v.ephemeralSecret, psk);
      ghost var before := View();
      FinishResp(v.timestamp, msg, out);
      assert Valid() && View() == before && Repr() == old(Repr());
      ghost var repr := Repr();
      var displaced := Install(H.FinishResponder(established), now, received.timestamp, source);
      assert Repr() - repr <= next.value.Repr();
      return Ok(displaced);
    }

    /** Puts an unconfirmed session in `next`. */
    method Install(keys: H.TransportKeys, now: nat, timestamp: nat, source: Address) returns (displaced: Option<nat>)
      requires Valid()
      modifies this
      ensures Valid() && fresh(Repr() - old(Repr()))
      ensures View() == old(View()).(lastTimestamp := Some(timestamp), endpoint := Some(source), next := Some(NewSession(keys, now)))
      ensures displaced == IndexOf(old(View()).next)
      ensures next.Some? && fresh(next.value.Repr()) && Repr() <= old(Repr()) + next.value.Repr()
    {
      var session := new Session(keys, now);
      lastTimestamp := Some(timestamp);
      endpoint := Some(source);
      displaced := if next.Some? then Some(next.value.transport.ourIndex) else None;
      next := Some(session);
    }

    method FinishResp(now: nat, m: H.RespMsg, out: array<Octet>)
      requires out.Length >= H.RESP_MSG_LENGTH
      modifies cookies`lastSentMac1, out
      ensures var (g, wire) := W.RespOctets(old(cookies.View()), now, m, old(out[60..92]));
              cookies.View() == g && out[..] == wire + old(out[92..])
    {
      hide C.GeneratorState.AddMacs;
      ghost var scratch, tail := out[60..92], out[92..];
      W.WriteResp(out, m);
      assert out[..92] == W.RespBody(m) + scratch && out[92..] == tail;
      assert out[..92][..4] == C.TypeOctets(2);
      var done := cookies.AddMacs(now, out, H.RESP_MSG_LENGTH);
      assert out[..] == out[..92] + out[92..];
    }

    method CookieReply(reply: seq<Octet>, now: nat) returns (r: Result<(), PeerError>)
      requires Valid()
      modifies cookies`lastCookie
      ensures Valid() && View() == old(View())
      ensures var (g, spec) := old(cookies.View()).ProcessReply(reply, now);
              cookies.View() == g && r == if spec.Ok? then Ok(()) else Err(CookieRejected)
    {
      var done := cookies.ProcessReply(reply, now);
      return if done.Ok? then Ok(()) else Err(CookieRejected);
    }

    method AdoptCurrent(session: Session, source: Address) returns (retired: Option<nat>)
      requires Valid() && session.Valid()
      requires session.Repr() !! Repr() && this !in session.Repr()
      modifies this
      ensures Valid() && Repr() == session.Repr() + SlotRepr(old(current)) + SlotRepr(old(next))
      ensures (View(), retired) == old(View()).AdoptCurrent(old(session.View()), source)
    {
      var old_ := previous;
      previous := current;
      current := Some(session);
      endpoint := Some(source);
      retired := if old_.Some? then Some(old_.value.transport.ourIndex) else None;
    }

    /** Reads the response from its octets. The sealed field is a bare tag, so
        decrypting it in place writes nothing back. */
    method HandshakeResponse(ourSecret: nat, now: nat, packet: array<Octet>, source: Address)
      returns (r: Result<Option<nat>, PeerError>)
      requires Valid() && packet !in Repr()
      modifies this
      ensures Valid() && fresh(Repr() - old(Repr()))
      ensures var msg := W.DecodeResp(packet[..]);
              && (msg.Some? ==> (View(), r) == old(View()).HandshakeResponse(ourSecret, now, msg.value, source))
              && (msg.None? ==> View() == old(View()) && r == Err(if old(pending).None? then Unexpected else HandshakeFailed))
    {
      hide H.ResponseReceived, H.FinishInitiator, W.DecodeResp;
      if pending.None? {
        return Err(Unexpected);
      }
      var msg := W.DecodeResp(packet[..]);
      if msg.None? {
        return Err(HandshakeFailed);
      }
      var established := H.ResponseReceived(pending.value.state, ourSecret, psk, msg.value);
      if established.None? {
        return Err(HandshakeFailed);
      }
      pending := None;
      var session := new Session(H.FinishInitiator(established.value), now);
      var retired := AdoptCurrent(session, source);
      return Ok(retired);
    }

    method Encrypt(now: nat, payload: Payload, out: array<Octet>) returns (r: Result<nat, PeerError>)
      requires Valid() && out !in Repr()
      modifies Repr(), out
      ensures Valid() && Repr() == old(Repr())
      ensures var (s, packet) := old(View()).Encrypt(now, payload, out.Length);
              && View() == s
              && (packet.Err? ==> r == Err(packet.error))
              && (packet.Ok? ==> r == Ok(|packet.value|) && out[..] == packet.value + old(out[..])[|packet.value|..])
    {
      if endpoint.None? {
        return Err(NoEndpoint);
      }
      if current.None? {
        return Err(NoSession);
      }
      if Since(now, current.value.established) >= REJECT_AFTER_TIME {
        return Err(Expired);
      }
      r := current.value.Send(payload, out);
    }

    ghost function At(slot: Slot): Option<Session>
      reads this
    {
      match slot
      case Next => next
      case Current => current
      case Previous => previous
    }

    /** Opens a packet on the session of one slot; the other slots do not move. */
    method ReceiveOn(session: Session, ghost slot: Slot, now: nat, packet: array<Octet>)
      returns (r: Result<nat, PeerError>)
      requires Valid() && packet !in Repr() && At(slot) == Some(session)
      modifies session.Repr(), packet
      ensures Valid() && Repr() == old(Repr())
      ensures View() == old(View()).With(slot, Some(session.View()))
      ensures if old(session.View()).ExpiredAt(now) then r == Err(Expired) && session.View() == old(session.View())
              else
                var (s, payload) := old(session.View()).Receive(old(packet[..]));
                && session.View() == s
                && (payload.Err? ==> r == Err(payload.error))
                && (payload.Ok? ==> r == Ok(|payload.value|) && |payload.value| <= packet.Length
                                    && packet[..|payload.value|] == payload.value)
    {
      if Since(now, session.established) >= REJECT_AFTER_TIME {
        return Err(Expired);
      }
      r := session.Receive(packet);
    }

    /** After an authenticated packet: roam, and promote a session it confirmed. */
    method Confirm(session: Session, slot: Slot, source: Address) returns (unmapped: Option<nat>)
      requires Valid() && At(slot) == Some(session)
      modifies this
      ensures Valid() && Repr() <= old(Repr())
      ensures if slot == Next then (View(), unmapped) == old(View().With(Next, None).AdoptCurrent(session.View(), source))
              else View() == old(View()).(endpoint := Some(source)) && unmapped == None
    {
      endpoint := Some(source);
      unmapped := None;
      if slot == Next {
        next := None;
        unmapped := AdoptCurrent(session, source);
      }
    }

    method Decrypt(now: nat, receiver: nat, packet: array<Octet>, source: Address)
      returns (r: Result<RecvInfo, PeerError>)
      requires Valid() && packet !in Repr()
      modifies this, Repr(), packet
      ensures Valid() && Repr() <= old(Repr())
      ensures var (s, recv) := old(View()).Decrypt(now, receiver, old(packet[..]), source);
              && View() == s
              && (recv.Err? ==> r == Err(recv.error))
              && (recv.Ok? ==>
                    && r == Ok(RecvInfo(|recv.value.payload|, recv.value.confirmed, recv.value.unmapped))
                    && |recv.value.payload| <= packet.Length
                    && packet[..|recv.value.payload|] == recv.value.payload)
    {
      hide SessionState.Receive;
      var session: Session;
      var slot: Slot;
      if next.Some? && next.value.transport.ourIndex == receiver {
        session, slot := next.value, Next;
      } else if current.Some? && current.value.transport.ourIndex == receiver {
        session, slot := current.value, Current;
      } else if previous.Some? && previous.value.transport.ourIndex == receiver {
        session, slot := previous.value, Previous;
      } else {
        return Err(Unexpected);
      }
      assert View().Find(receiver) == Some(slot) && View().At(slot) == Some(session.View());
      var got := ReceiveOn(session, slot, now, packet);
      if got.Err? {
        return Err(got.error);
      }
      var unmapped := Confirm(session, slot, source);
      return Ok(RecvInfo(got.value, slot == Next, unmapped));
    }
  }
}
