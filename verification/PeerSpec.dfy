/** The per-peer protocol state as a value: a pending handshake and three
    session slots. Each operation returns the new state and its result. */
module PeerSpec {
  import opened Wrappers
  import opened Crypto
  import opened Replay
  import opened Timing
  import opened TransportData
  import H = Handshake


  type Address = nat

  datatype PeerError =
    | Unexpected | HandshakeFailed | Invalid | Replayed | Expired | NoEndpoint | NoSession
    | CounterExhausted | BufferTooSmall(required: nat) | StaleTimestamp | CookieRejected

  /** Driver-supplied inputs for a handshake message. */
  datatype HandshakeValues = HandshakeValues(index: nat, ephemeralSecret: nat, timestamp: nat)

  datatype SessionState = SessionState(keys: H.TransportKeys, sendCounter: nat, established: nat, window: Window) {
    predicate ExpiredAt(now: nat) {
      Since(now, established) >= REJECT_AFTER_TIME
    }

    /** Seals one payload under the next counter. */
    function Send(payload: Payload, outLen: nat): (SessionState, Result<seq<Octet>, PeerError>) {
      if outLen < PacketLen(|payload|) then (this, Err(PeerError.BufferTooSmall(PacketLen(|payload|))))
      else if sendCounter >= REJECT_AFTER_MESSAGES then (this, Err(PeerError.CounterExhausted))
      else (this.(sendCounter := sendCounter + 1),
            Ok(DataPacket(keys.peerIndex, sendCounter, keys.sendKey, payload)))
    }

    /** Authenticates first, then consults the replay window. */
    function Receive(packet: seq<Octet>): (r: (SessionState, Result<Payload, PeerError>))
      ensures r.1.Err? ==> r.0 == this
      ensures r.0 == this.(window := r.0.window)
    {
      var got := Received(keys.ourIndex, keys.recvKey, packet);
      if got.None? then (this, Err(Invalid))
      else if !window.Admits(got.value.0) then (this, Err(Replayed))
      else (this.(window := window.After(got.value.0)), Ok(got.value.1))
    }
  }

  function NewSession(keys: H.TransportKeys, now: nat): SessionState {
    SessionState(keys, 0, now, EMPTY_WINDOW)
  }

  datatype PendingHandshake = PendingHandshake(state: H.InitSent, ourIndex: nat)

  datatype Recv = Recv(payload: Payload, confirmed: bool, unmapped: Option<nat>)

  function IndexOf(s: Option<SessionState>): Option<nat> {
    if s.Some? then Some(s.value.keys.ourIndex) else None
  }

  datatype Slot = Next | Current | Previous

  datatype PeerState = PeerState(
    peerKey: Term,
    endpoint: Option<Address>,
    psk: Option<Term>,
    lastTimestamp: Option<nat>,
    pending: Option<PendingHandshake>,
    current: Option<SessionState>,
    next: Option<SessionState>,
    previous: Option<SessionState>)
  {
    function Initiate(ourSecret: nat, v: HandshakeValues, outLen: nat)
      : (PeerState, Result<(Option<nat>, H.InitMsg), PeerError>)
    {
      if outLen < H.INIT_MSG_LENGTH then (this, Err(PeerError.BufferTooSmall(H.INIT_MSG_LENGTH)))
      else
        var init := H.Initiate(ourSecret, peerKey, v.index, v.ephemeralSecret, v.timestamp);
        if init.None? then (this, Err(HandshakeFailed))
        else
          (this.(pending := Some(PendingHandshake(init.value.0, v.index))),
           Ok((if pending.Some? then Some(pending.value.ourIndex) else None, init.value.1)))
    }

    function Abandon(): (PeerState, Option<nat>) {
      (this.(pending := None), if pending.Some? then Some(pending.value.ourIndex) else None)
    }

    function Respond(now: nat, received: H.InitReceived, v: HandshakeValues, source: Address, outLen: nat)
      : (PeerState, Result<(Option<nat>, H.RespMsg), PeerError>)
    {
      if lastTimestamp.Some? && received.timestamp <= lastTimestamp.value then (this, Err(StaleTimestamp))
      else if outLen < H.RESP_MSG_LENGTH then (this, Err(PeerError.BufferTooSmall(H.RESP_MSG_LENGTH)))
      else
        var (msg, established) := H.Respond(received, v.index, v.ephemeralSecret, psk);
        (this.(lastTimestamp := Some(received.timestamp), endpoint := Some(source),
               next := Some(NewSession(H.FinishResponder(established), now))),
         Ok((IndexOf(next), msg)))
    }

    /** Rotates the slots: the session becomes current, current becomes previous,
        and the index of the session pushed out is returned. */
    function AdoptCurrent(session: SessionState, source: Address): (PeerState, Option<nat>) {
      (this.(previous := current, current := Some(session), endpoint := Some(source)), IndexOf(previous))
    }

    function HandshakeResponse(ourSecret: nat, now: nat, msg: H.RespMsg, source: Address)
      : (PeerState, Result<Option<nat>, PeerError>)
    {
      if pending.None? then (this, Err(Unexpected))
      else
        var established := H.ResponseReceived(pending.value.state, ourSecret, psk, msg);
        if established.None? then (this, Err(HandshakeFailed))
        else
          var (s, retired) := this.(pending := None)
                              .AdoptCurrent(NewSession(H.FinishInitiator(established.value), now), source);
          (s, Ok(retired))
    }

    function Encrypt(now: nat, payload: Payload, outLen: nat): (PeerState, Result<seq<Octet>, PeerError>) {
      if endpoint.None? then (this, Err(NoEndpoint))
      else if current.None? then (this, Err(NoSession))
      else if current.value.ExpiredAt(now) then (this, Err(Expired))
      else
        var (session, packet) := current.value.Send(payload, outLen);
        (this.(current := Some(session)), packet)
    }

    predicate RekeyDueToMessages() {
      current.Some? && current.value.sendCounter >= REKEY_AFTER_MESSAGES
    }

    /** The slot whose session a receiver index names; an unconfirmed session is looked at first. */
    function Find(receiver: nat): Option<Slot> {
      if IndexOf(next) == Some(receiver) then Some(Next)
      else if IndexOf(current) == Some(receiver) then Some(Current)
      else if IndexOf(previous) == Some(receiver) then Some(Previous)
      else None
    }

    function At(slot: Slot): Option<SessionState> {
      match slot
      case Next => next
      case Current => current
      case Previous => previous
    }

    function With(slot: Slot, session: Option<SessionState>): PeerState {
      match slot
      case Next => this.(next := session)
      case Current => this.(current := session)
      case Previous => this.(previous := session)
    }

    function Decrypt(now: nat, receiver: nat, packet: seq<Octet>, source: Address): (PeerState, Result<Recv, PeerError>) {
      var slot := Find(receiver);
      if slot.None? then (this, Err(Unexpected)) else
      var session := At(slot.value).value;
      if session.ExpiredAt(now) then (this, Err(Expired)) else
      var (session', payload) := session.Receive(packet);
      if payload.Err? then (this, Err(payload.error)) else
      if slot.value == Next then
        var (s, unmapped) := With(Next, None).AdoptCurrent(session', source);
        (s, Ok(Recv(payload.value, true, unmapped)))
      else
        (With(slot.value, Some(session')).(endpoint := Some(source)), Ok(Recv(payload.value, false, None)))
    }
  }

  function NewPeer(peerKey: Term): PeerState {
    PeerState(peerKey, None, None, None, None, None, None, None)
  }
}
