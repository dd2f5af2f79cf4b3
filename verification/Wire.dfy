/** Octet layout of the handshake messages and the header every message is
    dispatched by. */
module Wire {
  import opened Wrappers
  import opened Crypto
  import opened TransportData
  import C = Cookies
  import H = Handshake

  datatype MessageHeader =
    | HandshakeInit
    | HandshakeResponse(receiver: nat)
    | CookieReply(receiver: nat)
    | Data(receiver: nat)

  datatype HeaderError = InvalidLength | InvalidHeader | InvalidMessageType

  /** Type, reserved octets, exact or minimal length, and the receiver index of
      the kinds that carry one. An index octet is always a plain byte here. */
  function ParseHeader(msg: seq<Octet>): Result<MessageHeader, HeaderError> {
    if |msg| < 4 then Err(InvalidLength)
    else if !(msg[0].Raw? && 1 <= msg[0].value <= 4) then Err(InvalidMessageType)
    else if msg[1..4] != [Raw(0), Raw(0), Raw(0)] then Err(InvalidHeader)
    else
      var kind := msg[0].value;
      var len := |msg|;
      if kind == 1 then if len == H.INIT_MSG_LENGTH then Ok(HandshakeInit) else Err(InvalidLength)
      else if kind == 2 then
        if len == H.RESP_MSG_LENGTH then WithIndex(msg[8..12], (i: nat) => HandshakeResponse(i)) else Err(InvalidLength)
      else if kind == 3 then
        if len == C.COOKIE_REPLY_LENGTH then WithIndex(msg[4..8], (i: nat) => CookieReply(i)) else Err(InvalidLength)
      else
        if len >= PacketLen(0) then WithIndex(msg[4..8], (i: nat) => Data(i)) else Err(InvalidLength)
  }

  function WithIndex(field: seq<Octet>, make: nat -> MessageHeader): Result<MessageHeader, HeaderError> {
    var n := ReadNumber(field);
    if n.Some? then Ok(make(n.value)) else Err(InvalidHeader)
  }

  function IndexField(i: nat): (s: seq<Octet>)
    ensures |s| == 4
  {
    Raws(LittleEndian(i, 4))
  }

  lemma IndexFieldReads(i: nat)
    requires i < INDEX_LIMIT
    ensures ReadNumber(IndexField(i)) == Some(i)
  {
    Limits();
    LittleEndianRoundTrip(i, 4);
    ReadNumberOfRaws(LittleEndian(i, 4));
  }

  /** The term whose block fills a field, or the field's octets when it is no block. */
  function TermOf(field: seq<Octet>): Term {
    if |field| > 0 && field[0].Cell? && field == Block(field[0].block, |field|) then field[0].block else Octets(field)
  }

  lemma TermOfBlock(t: Term, n: nat)
    requires n > 0
    ensures TermOf(Block(t, n)) == t
  {
    assert Block(t, n)[0] == Cell(t, 0);
  }

  const TAG: nat := AEAD_TAG_SIZE

  /** The fields an initiation shows in the clear. */
  function InitPrefix(sender: nat, ephemeral: Term): (s: seq<Octet>)
    ensures |s| == 40
  {
    C.TypeOctets(1) + IndexField(sender) + Block(ephemeral, 32)
  }

  function InitSealed(m: H.InitMsg): (s: seq<Octet>)
    ensures |s| == 76
  {
    Block(m.sealedStatic, 32 + TAG) + Block(m.sealedTimestamp, 12 + TAG)
  }

  function InitBody(m: H.InitMsg): (s: seq<Octet>)
    ensures |s| == H.INIT_MSG_LENGTH - 2 * C.MAC_SIZE
  {
    InitPrefix(m.sender, m.ephemeral) + InitSealed(m)
  }

  function RespPrefix(sender: nat, receiver: nat): (s: seq<Octet>)
    ensures |s| == 12
  {
    C.TypeOctets(2) + IndexField(sender) + IndexField(receiver)
  }

  function RespBody(m: H.RespMsg): (s: seq<Octet>)
    ensures |s| == H.RESP_MSG_LENGTH - 2 * C.MAC_SIZE
  {
    RespPrefix(m.sender, m.receiver) + (Block(m.ephemeral, 32) + Block(m.sealedEmpty, TAG))
  }

  function DecodeInit(msg: seq<Octet>): Option<H.InitMsg> {
    if |msg| != H.INIT_MSG_LENGTH || msg[..4] != C.TypeOctets(1) then None
    else
      var sender := ReadNumber(msg[4..8]);
      if sender.None? then None
      else Some(H.InitMsg(sender.value, TermOf(msg[8..40]), TermOf(msg[40..88]), TermOf(msg[88..116])))
  }

  function DecodeResp(msg: seq<Octet>): Option<H.RespMsg> {
    if |msg| != H.RESP_MSG_LENGTH || msg[..4] != C.TypeOctets(2) then None
    else
      var sender, receiver := ReadNumber(msg[4..8]), ReadNumber(msg[8..12]);
      if sender.None? || receiver.None? then None
      else Some(H.RespMsg(sender.value, receiver.value, TermOf(msg[12..44]), TermOf(msg[44..60])))
  }

  /** An initiation written to the wire, with any MACs, reads back as itself and dispatches as an initiation. */
  lemma InitRoundTrip(m: H.InitMsg, msg: seq<Octet>)
    requires m.sender < INDEX_LIMIT && |msg| == H.INIT_MSG_LENGTH && InitBody(m) <= msg
    ensures DecodeInit(msg) == Some(m) && ParseHeader(msg) == Ok(HandshakeInit) && C.IsHandshake(msg)
  {
    hide Block, IndexField, TermOf, ReadNumber;
    assert msg[..116] == InitBody(m);
    assert msg[..4] == C.TypeOctets(1) && msg[4..8] == IndexField(m.sender);
    assert msg[8..40] == Block(m.ephemeral, 32) && msg[40..88] == Block(m.sealedStatic, 32 + TAG);
    assert msg[88..116] == Block(m.sealedTimestamp, 12 + TAG);
    IndexFieldReads(m.sender);
    TermOfBlock(m.ephemeral, 32);
    TermOfBlock(m.sealedStatic, 32 + TAG);
    TermOfBlock(m.sealedTimestamp, 12 + TAG);
  }

  lemma RespRoundTrip(m: H.RespMsg, msg: seq<Octet>)
    requires m.sender < INDEX_LIMIT && m.receiver < INDEX_LIMIT && |msg| == H.RESP_MSG_LENGTH && RespBody(m) <= msg
    ensures DecodeResp(msg) == Some(m) && ParseHeader(msg) == Ok(HandshakeResponse(m.receiver)) && C.IsHandshake(msg)
  {
    hide Block, IndexField, TermOf, ReadNumber;
    assert msg[..60] == RespBody(m);
    assert msg[..4] == C.TypeOctets(2) && msg[4..8] == IndexField(m.sender) && msg[8..12] == IndexField(m.receiver);
    assert msg[12..44] == Block(m.ephemeral, 32) && msg[44..60] == Block(m.sealedEmpty, TAG);
    IndexFieldReads(m.sender);
    IndexFieldReads(m.receiver);
    TermOfBlock(m.ephemeral, 32);
    TermOfBlock(m.sealedEmpty, TAG);
  }

  /** A data packet dispatches to the receiver index its sender put in it. */
  lemma DataDispatch(receiver: nat, counter: nat, key: Term, payload: Payload)
    requires receiver < INDEX_LIMIT && counter < COUNTER_LIMIT
    ensures ParseHeader(DataPacket(receiver, counter, key, payload)) == Ok(Data(receiver))
  {
    hide Seal, ReadNumber;
    var p := DataPacket(receiver, counter, key, payload);
    HeaderFields(receiver, counter, Seal(key, counter, EMPTY, payload));
    assert p[..4] == Raws(HEADER_TYPE);
    assert Raws(HEADER_TYPE) == [Raw(4), Raw(0), Raw(0), Raw(0)];
    assert p[0] == p[..4][0] && p[1..4] == p[..4][1..4];
  }

  /** A cookie reply dispatches to the sender index of the handshake that prompted it. */
  lemma CookieDispatch(publicKey: Term, sender: nat, prompting: seq<Octet>, source: seq<Octet>, secret: Term, nonce: seq<Octet>)
    requires |nonce| == 24 && C.IsHandshake(prompting) && sender < INDEX_LIMIT && prompting[4..8] == IndexField(sender)
    ensures ParseHeader(C.CookieReply(publicKey, prompting, source, secret, nonce).value) == Ok(CookieReply(sender))
  {
    hide C.XSeal, ReadNumber, IndexField;
    var reply := C.CookieReply(publicKey, prompting, source, secret, nonce).value;
    assert reply[..4] == C.TypeOctets(3) && reply[4..8] == prompting[4..8];
    assert reply[0] == reply[..4][0] && reply[1..4] == reply[..4][1..4];
    IndexFieldReads(sender);
  }

  /** An initiation as the generator finishes it: any scratch octets in the MAC fields, then real MACs. */
  function InitOctets(g: C.GeneratorState, now: nat, m: H.InitMsg, scratch: seq<Octet>): (r: (C.GeneratorState, seq<Octet>))
    requires |scratch| == 2 * C.MAC_SIZE
    ensures |r.1| == H.INIT_MSG_LENGTH
  {
    var msg := InitBody(m) + scratch;
    assert msg[..4] == C.TypeOctets(1);
    g.AddMacs(now, msg)
  }

  function RespOctets(g: C.GeneratorState, now: nat, m: H.RespMsg, scratch: seq<Octet>): (r: (C.GeneratorState, seq<Octet>))
    requires |scratch| == 2 * C.MAC_SIZE
    ensures |r.1| == H.RESP_MSG_LENGTH
  {
    var msg := RespBody(m) + scratch;
    assert msg[..4] == C.TypeOctets(2);
    g.AddMacs(now, msg)
  }

  /** Writes the clear fields of an initiation. */
  method WriteInitPrefix(buf: array<Octet>, sender: nat, ephemeral: Term)
    requires buf.Length >= H.INIT_MSG_LENGTH
    modifies buf
    ensures buf[..] == InitPrefix(sender, ephemeral) + old(buf[40..])
  {
    hide Block, IndexField;
    Write(buf, 0, C.TypeOctets(1));
    Write(buf, 4, IndexField(sender));
    Write(buf, 8, Block(ephemeral, 32));
  }

  /** Writes the sealed fields after them. */
  method WriteInitSealed(buf: array<Octet>, m: H.InitMsg)
    requires buf.Length >= H.INIT_MSG_LENGTH && buf[..40] == InitPrefix(m.sender, m.ephemeral)
    modifies buf
    ensures buf[..] == InitBody(m) + old(buf[H.INIT_MSG_LENGTH - 2 * C.MAC_SIZE..])
  {
    hide Block, InitPrefix;
    Write(buf, 40, Block(m.sealedStatic, 32 + TAG));
    Write(buf, 88, Block(m.sealedTimestamp, 12 + TAG));
  }

  method WriteResp(buf: array<Octet>, m: H.RespMsg)
    requires buf.Length >= H.RESP_MSG_LENGTH
    modifies buf
    ensures buf[..] == RespBody(m) + old(buf[H.RESP_MSG_LENGTH - 2 * C.MAC_SIZE..])
  {
    hide Block, RespPrefix, RespBody;
    ghost var tail := buf[60..];
    WriteRespPrefix(buf, m.sender, m.receiver);
    assert buf[60..] == tail;
    WriteRespRest(buf, m);
  }

  method WriteRespPrefix(buf: array<Octet>, sender: nat, receiver: nat)
    requires buf.Length >= H.RESP_MSG_LENGTH
    modifies buf
    ensures buf[..] == RespPrefix(sender, receiver) + old(buf[12..])
  {
    hide IndexField;
    Write(buf, 0, C.TypeOctets(2));
    Write(buf, 4, IndexField(sender));
    Write(buf, 8, IndexField(receiver));
  }

  method WriteRespRest(buf: array<Octet>, m: H.RespMsg)
    requires buf.Length >= H.RESP_MSG_LENGTH && buf[..12] == RespPrefix(m.sender, m.receiver)
    modifies buf
    ensures buf[..] == RespBody(m) + old(buf[H.RESP_MSG_LENGTH - 2 * C.MAC_SIZE..])
  {
    hide Block, RespPrefix;
    Write(buf, 12, Block(m.ephemeral, 32));
    Write(buf, 44, Block(m.sealedEmpty, TAG));
  }

  /** The whole handshake over the wire. For all keys, indices, timestamps,
      preshared keys and MAC state, the octets each side writes are read by the
      other: both MACs verify at their addressees, the response dispatches to
      the initiator's index, and both ends derive mirrored transport keys. */
  lemma HandshakeOverTheWire(ourSecret: nat, peerSecret: nat, sender: nat, ephemeral: nat, timestamp: nat,
                             index: nat, answer: nat, psk: Option<Term>, scratch: seq<Octet>,
                             g: C.GeneratorState, at: nat, g': C.GeneratorState, at': nat)
    requires sender < INDEX_LIMIT && index < INDEX_LIMIT && |scratch| == 2 * C.MAC_SIZE
    requires g.publicKey == Point(peerSecret) && g'.publicKey == Point(ourSecret)
    ensures var (sent, init) := H.Initiate(ourSecret, Point(peerSecret), sender, ephemeral, timestamp).value;
            && var wire1 := InitOctets(g, at, init, scratch).1;
               && C.VerifyMac1(Point(peerSecret), wire1) && ParseHeader(wire1) == Ok(HandshakeInit) && DecodeInit(wire1) == Some(init)
               && var received := H.Receive(peerSecret, init);
                  && received.Some? && received.value.peerPublic == Point(ourSecret) && received.value.timestamp == timestamp
                  && var (resp, responder) := H.Respond(received.value, index, answer, psk);
                     && var wire2 := RespOctets(g', at', resp, scratch).1;
                        && C.VerifyMac1(Point(ourSecret), wire2) && ParseHeader(wire2) == Ok(HandshakeResponse(sender))
                        && DecodeResp(wire2) == Some(resp)
                        && var initiator := H.ResponseReceived(sent, ourSecret, psk, resp);
                           && initiator.Some?
                           && H.Mirror(H.FinishInitiator(initiator.value), H.FinishResponder(responder))
  {
    hide InitBody, RespBody, InitOctets, RespOctets, C.VerifyMac1, ParseHeader, DecodeInit, DecodeResp;
    H.HandshakeAgreement(ourSecret, peerSecret, sender, ephemeral, timestamp, index, answer, psk, ourSecret);
    var (sent, init) := H.Initiate(ourSecret, Point(peerSecret), sender, ephemeral, timestamp).value;
    InitFinished(g, at, init, scratch);
    var received := H.Receive(peerSecret, init).value;
    H.InitiationRead(ourSecret, peerSecret, sender, ephemeral, timestamp, peerSecret);
    var resp := H.Respond(received, index, answer, psk).0;
    RespFinished(g', at', resp, scratch);
  }

  lemma InitFinished(g: C.GeneratorState, now: nat, m: H.InitMsg, scratch: seq<Octet>)
    requires m.sender < INDEX_LIMIT && |scratch| == 2 * C.MAC_SIZE
    ensures var wire := InitOctets(g, now, m, scratch).1;
            C.VerifyMac1(g.publicKey, wire) && DecodeInit(wire) == Some(m) && ParseHeader(wire) == Ok(HandshakeInit)
  {
    hide InitBody, DecodeInit, ParseHeader, C.GeneratorState.AddMacs, C.VerifyMac1;
    var blank := InitBody(m) + scratch;
    InitRoundTrip(m, blank);
    assert blank[..C.Mac1Offset(|blank|)] == InitBody(m);
    C.Mac1Verifies(g, now, blank, g.publicKey);
    var wire := g.AddMacs(now, blank).1;
    assert wire[..C.Mac1Offset(|blank|)] == InitBody(m);
    InitRoundTrip(m, wire);
  }

  lemma RespFinished(g: C.GeneratorState, now: nat, m: H.RespMsg, scratch: seq<Octet>)
    requires m.sender < INDEX_LIMIT && m.receiver < INDEX_LIMIT && |scratch| == 2 * C.MAC_SIZE
    ensures var wire := RespOctets(g, now, m, scratch).1;
            C.VerifyMac1(g.publicKey, wire) && DecodeResp(wire) == Some(m) && ParseHeader(wire) == Ok(HandshakeResponse(m.receiver))
  {
    hide RespBody, DecodeResp, ParseHeader, C.GeneratorState.AddMacs, C.VerifyMac1;
    var blank := RespBody(m) + scratch;
    RespRoundTrip(m, blank);
    assert blank[..C.Mac1Offset(|blank|)] == RespBody(m);
    C.Mac1Verifies(g, now, blank, g.publicKey);
    var wire := g.AddMacs(now, blank).1;
    assert wire[..C.Mac1Offset(|blank|)] == RespBody(m);
    RespRoundTrip(m, wire);
  }
}
